/** What the journal says of one execution: its manifest, its tool calls, and their digests. */
module ExecutionManifest {
  import opened Pipelines
  import opened JsonValues
  import opened AuditChain

  /** The digest of a value, by its canonical JSON text. */
  type Digest = Json -> string

  ghost predicate Digests(d: Digest)
  {
    forall j :: d(j) != ""
  }

  const PIPELINE_STARTED := "pipeline.started"
  const TOOL_STARTED := "tool.started"
  const TOOL_COMPLETED := "tool.completed"

  // ---------- verifying an execution ----------

  function FieldOf(e: Event, name: string): Json
  {
    if name in e.details then e.details[name] else Null
  }

  function TextOf(j: Json): string
  {
    if j.Text? then j.s else ""
  }

  function ObjectOf(j: Json): Json
  {
    if j.Object? then j else Null
  }

  /** A value and the digest recorded beside it. */
  predicate Fits(d: Digest, value: Json, recorded: Json)
  {
    TextOf(recorded) != "" && d(value) == TextOf(recorded)
  }

  predicate IsManifest(e: Event, trace: string)
  {
    e.traceID == trace && e.phase == PIPELINE_STARTED
  }

  predicate IsCall(e: Event, trace: string)
  {
    e.traceID == trace && e.phase == TOOL_STARTED
  }

  function VersionOf(e: Event): string
  {
    TextOf(FieldOf(e, "pipeline_version"))
  }

  /** The digests in an event fit what is recorded beside them. */
  predicate Sound(d: Digest, e: Event)
  {
    && (e.phase == PIPELINE_STARTED ==>
          && Fits(d, FieldOf(e, "pipeline_snapshot"), FieldOf(e, "pipeline_version"))
          && Fits(d, ObjectOf(FieldOf(e, "inputs")), FieldOf(e, "input_digest")))
    && (e.phase == TOOL_STARTED ==> Fits(d, ObjectOf(FieldOf(e, "inputs")), FieldOf(e, "input_digest")))
    && (e.phase == TOOL_COMPLETED ==> Fits(d, ObjectOf(FieldOf(e, "result")), FieldOf(e, "output_digest")))
  }

  predicate AllSound(d: Digest, records: seq<Record>, trace: string)
  {
    forall i | 0 <= i < |records| && records[i].event.traceID == trace :: Sound(d, records[i].event)
  }

  /** All manifests of the trace carry this version. */
  predicate OneVersion(records: seq<Record>, trace: string, version: string)
  {
    forall i | 0 <= i < |records| && IsManifest(records[i].event, trace) :: VersionOf(records[i].event) == version
  }

  predicate HasManifest(records: seq<Record>, trace: string)
  {
    exists i | 0 <= i < |records| :: IsManifest(records[i].event, trace)
  }

  function Calls(records: seq<Record>, trace: string): nat
  {
    if records == [] then 0
    else Calls(records[..|records| - 1], trace) + if IsCall(records[|records| - 1].event, trace) then 1 else 0
  }

  /** The records of the trace account for an execution of that version. */
  predicate Accounts(d: Digest, records: seq<Record>, trace: string, version: string)
  {
    AllSound(d, records, trace) && OneVersion(records, trace, version) && HasManifest(records, trace)
  }

  ghost predicate Accounted(d: Digest, records: seq<Record>, trace: string)
  {
    exists version :: Accounts(d, records, trace, version)
  }

  // What the predicates above ask of a record, field by field.

  /** The field holds this text, which is not empty. */
  ghost predicate Holds(e: Event, name: string, text: string)
  {
    text != "" && name in e.details && e.details[name] == Text(text)
  }

  /** The digest of the object in a field, or of null, stands beside it. */
  ghost predicate DigestStands(d: Digest, e: Event, name: string, recorded: string)
  {
    Holds(e, recorded, d(if name in e.details && e.details[name].Object? then e.details[name] else Null))
  }

  /** A record of the trace that is evidence of an execution of this version. */
  ghost predicate IsEvidence(d: Digest, e: Event, version: string)
  {
    && (e.phase == "pipeline.started" ==>
          && Holds(e, "pipeline_version", version)
          && d(if "pipeline_snapshot" in e.details then e.details["pipeline_snapshot"] else Null) == version
          && DigestStands(d, e, "inputs", "input_digest"))
    && (e.phase == "tool.started" ==> DigestStands(d, e, "inputs", "input_digest"))
    && (e.phase == "tool.completed" ==> DigestStands(d, e, "result", "output_digest"))
  }

  lemma FitsExactly(d: Digest, e: Event, name: string, recorded: string)
    ensures Fits(d, ObjectOf(FieldOf(e, name)), FieldOf(e, recorded)) <==> DigestStands(d, e, name, recorded)
  {
  }

  /** A trace is accounted for exactly when each of its records is evidence of one version, and one of
      them is a manifest. */
  lemma AccountsExactly(d: Digest, records: seq<Record>, trace: string, version: string)
    ensures Accounts(d, records, trace, version)
       <==> && (forall i | 0 <= i < |records| && records[i].event.traceID == trace ::
                  IsEvidence(d, records[i].event, version))
            && (exists i | 0 <= i < |records| ::
                  records[i].event.traceID == trace && records[i].event.phase == "pipeline.started")
  {
    forall i | 0 <= i < |records| && records[i].event.traceID == trace
      ensures IsEvidence(d, records[i].event, version)
         <==> && Sound(d, records[i].event)
              && (IsManifest(records[i].event, trace) ==> VersionOf(records[i].event) == version)
    {
      EvidenceExactly(d, records[i].event, trace, version);
    }
    assert HasManifest(records, trace) <==> exists i | 0 <= i < |records| ::
        records[i].event.traceID == trace && records[i].event.phase == "pipeline.started";
  }

  lemma EvidenceExactly(d: Digest, e: Event, trace: string, version: string)
    requires e.traceID == trace
    ensures IsEvidence(d, e, version) <==> Sound(d, e) && (IsManifest(e, trace) ==> VersionOf(e) == version)
  {
    FitsExactly(d, e, "inputs", "input_digest");
    FitsExactly(d, e, "result", "output_digest");
  }

  ghost function CallPlaces(records: seq<Record>, trace: string): set<int>
  {
    set i | 0 <= i < |records| && records[i].event.traceID == trace && records[i].event.phase == "tool.started"
  }

  /** The calls are the records of the trace with which a tool started. */
  lemma {:induction false} CallsExactly(records: seq<Record>, trace: string)
    ensures Calls(records, trace) == |CallPlaces(records, trace)|
  {
    if records != [] {
      var n := |records| - 1;
      var before := records[..n];
      CallsExactly(before, trace);
      if IsCall(records[n].event, trace) {
        assert CallPlaces(records, trace) == CallPlaces(before, trace) + {n};
      } else {
        assert CallPlaces(records, trace) == CallPlaces(before, trace);
      }
    }
  }

  lemma OneMoreRecord(d: Digest, records: seq<Record>, i: nat, trace: string, version: string)
    requires i < |records|
    ensures var e, before, after := records[i].event, records[..i], records[..i + 1];
      && (AllSound(d, after, trace) <==> AllSound(d, before, trace) && (e.traceID == trace ==> Sound(d, e)))
      && (OneVersion(after, trace, version) <==>
            OneVersion(before, trace, version) && (IsManifest(e, trace) ==> VersionOf(e) == version))
      && (HasManifest(after, trace) <==> HasManifest(before, trace) || IsManifest(e, trace))
      && Calls(after, trace) == Calls(before, trace) + if IsCall(e, trace) then 1 else 0
  {
    var before, after := records[..i], records[..i + 1];
    assert after == before + [records[i]];
    assert after[..i] == before;
    if HasManifest(before, trace) {
      var k :| 0 <= k < i && IsManifest(before[k].event, trace);
      assert after[k] == before[k];
    } else if IsManifest(records[i].event, trace) {
      assert after[i] == records[i];
    }
  }

  /** A record that does not fit, or whose version differs from an earlier one, spoils the execution. */
  lemma NotAccounted(d: Digest, records: seq<Record>, i: nat, trace: string, version: string)
    requires i < |records| && records[i].event.traceID == trace
    requires OneVersion(records[..i], trace, version)
    requires var e := records[i].event;
      || !Sound(d, e)
      || (IsManifest(e, trace) && HasManifest(records[..i], trace) && VersionOf(e) != version)
    ensures !Accounted(d, records, trace)
  {
    if HasManifest(records[..i], trace) {
      var k :| 0 <= k < i && IsManifest(records[..i][k].event, trace);
      assert VersionOf(records[k].event) == version;
    }
  }

  datatype ExecutionVerification = ExecutionVerification(valid: bool, pipelineVersion: string, toolCalls: nat)

  /** One record of the trace: whether it fits, the version after it and whether it is a manifest. */
  method CheckRecord(d: Digest, e: Event, version: string, manifestFound: bool) returns (ok: bool, version': string)
    ensures ok <==> Sound(d, e) && (e.phase == PIPELINE_STARTED && manifestFound ==> VersionOf(e) == version)
    ensures ok ==> version' == if e.phase == PIPELINE_STARTED then VersionOf(e) else version
  {
    version' := version;
    if e.phase == PIPELINE_STARTED {
      version' := TextOf(FieldOf(e, "pipeline_version"));
      if version' == "" || d(FieldOf(e, "pipeline_snapshot")) != version' {
        return false, version;
      }
      var inputDigest := TextOf(FieldOf(e, "input_digest"));
      if inputDigest == "" || d(ObjectOf(FieldOf(e, "inputs"))) != inputDigest {
        return false, version;
      }
      if manifestFound && version != version' {
        return false, version;
      }
    }
    if e.phase == TOOL_STARTED {
      var inputDigest := TextOf(FieldOf(e, "input_digest"));
      if inputDigest == "" || d(ObjectOf(FieldOf(e, "inputs"))) != inputDigest {
        return false, version;
      }
    }
    if e.phase == TOOL_COMPLETED {
      var outputDigest := TextOf(FieldOf(e, "output_digest"));
      if outputDigest == "" || d(ObjectOf(FieldOf(e, "result"))) != outputDigest {
        return false, version;
      }
    }
    ok := true;
  }

  /** VerifyExecutionFile: accepts exactly a valid chain whose records account for the execution. */
  method VerifyExecution(hash: HashFunction, d: Digest, lines: seq<Line>, trace: string)
      returns (result: ExecutionVerification)
    ensures result.valid <==> AcceptedLines(hash, lines) && Accounted(d, Records(lines), trace)
    ensures result.valid ==> Accounts(d, Records(lines), trace, result.pipelineVersion)
    ensures result.valid ==> result.toolCalls == Calls(Records(lines), trace)
  {
    result := ExecutionVerification(false, "", 0);
    var chain := Verify(hash, lines);
    if !chain.valid {
      return;
    }
    var records := Records(lines);
    var manifestFound := false;
    for i := 0 to |records|
      invariant !result.valid && result.toolCalls == Calls(records[..i], trace)
      invariant AllSound(d, records[..i], trace)
      invariant OneVersion(records[..i], trace, result.pipelineVersion)
      invariant manifestFound <==> HasManifest(records[..i], trace)
    {
      var e := records[i].event;
      if e.traceID == trace {
        var ok, version := CheckRecord(d, e, result.pipelineVersion, manifestFound);
        if !ok {
          NotAccounted(d, records, i, trace, result.pipelineVersion);
          return;
        }
        result := result.(pipelineVersion := version, toolCalls := result.toolCalls + if e.phase == TOOL_STARTED
            then 1 else 0);
        manifestFound := manifestFound || e.phase == PIPELINE_STARTED;
      }
      OneMoreRecord(d, records, i, trace, result.pipelineVersion);
    }
    assert records[..|records|] == records;
    assert manifestFound ==> Accounts(d, records, trace, result.pipelineVersion);
    result := result.(valid := manifestFound);
  }

  // ---------- the events of a run ----------

  function ManifestEvent(d: Digest, trace: string, pipeline: string, snapshot: Json, inputs: Fields): Event
  {
    Event(trace, pipeline, PIPELINE_STARTED,
          map["pipeline_version" := Text(d(snapshot)), "pipeline_snapshot" := snapshot,
              "input_digest" := Text(d(Object(inputs))), "inputs" := Object(inputs)])
  }

  function StartedEvent(d: Digest, trace: string, pipeline: string, inputs: Fields): Event
  {
    Event(trace, pipeline, TOOL_STARTED, map["input_digest" := Text(d(Object(inputs))), "inputs" := Object(inputs)])
  }

  /** A tool's output may be nil, which is recorded as null. */
  function CompletedEvent(d: Digest, trace: string, pipeline: string, output: Option<Fields>): Event
  {
    var result := if output.Some? then Object(output.value) else Null;
    Event(trace, pipeline, TOOL_COMPLETED, map["result" := result, "output_digest" := Text(d(result))])
  }

  /** Other entries of the task's life: approvals asked and given, callbacks, failures. */
  predicate IsNote(e: Event)
  {
    e.phase != PIPELINE_STARTED && e.phase != TOOL_STARTED && e.phase != TOOL_COMPLETED
  }

  // ---------- the task ----------

  /** What the store holds of the task: the version it started with, and whether it waits. */
  datatype Stored = Stored(version: string, waiting: bool)

  /** One task, the journal it shares with others, and, in memory: the version of the definition that
      is running; the version in the execution that the run holds, if the load that began it did not
      fail; the decisions queued for the verifier and the messages for the analyst; and the calls that
      were granted but not made yet. For the record: the version first saved, the calls made, those
      granted without a journal entry, and whether a record without its version was ever stored. */
  datatype Task = Task(journal: Journal, stored: Option<Stored>, running: Option<string>, held: Option<string>,
                       queued: nat, told: nat, granted: nat, version: string, invoked: nat, dark: nat, lost: bool)

  const NEW_TASK := Task(NEW_JOURNAL, None, None, None, 0, 0, 0, "", 0, 0, false)

  /** LogChecked reports no error. */
  predicate Logged(j: Journal, o: WriteOutcome)
  {
    j.memory.Some? && !j.memory.value.failed && j.memory.value.open && o.Written?
  }

  function Entered(hash: HashFunction, t: Task, e: Event, o: WriteOutcome): Task
  {
    t.(journal := AfterLog(hash, t.journal, e, o))
  }

  function CallbackEvent(trace: string, pipeline: string): Event
  {
    Event(trace, pipeline, "callback.received", map[])
  }

  /** failAuditExecution: the run ends and the stored task no longer waits. What is stored is the
      execution at hand, or else whatever was stored. */
  function FailedAudit(t: Task, atHand: Option<string>): Task
  {
    var stored := match atHand
                  case Some(version) => Some(Stored(version, false))
                  case None => if t.stored.Some? then Some(t.stored.value.(waiting := false)) else None;
    t.(running := None, held := None, stored := stored)
  }

  datatype Definition = Definition(pipeline: string, snapshot: Json)

  /** What does not change over a run: the hash, the digest and the id of the task. */
  datatype Setting = Setting(hash: HashFunction, digest: Digest, trace: string)

  /** The run begins by loading the execution; an error of that load is not looked at. */
  function Begun(t: Task, version: string, loaded: bool): Task
  {
    t.(running := Some(version), held := if loaded then Some(version) else None)
  }

  /** ensurePipelineManifest before a run: refused when the definition differs from the recorded
      one; accepted as it is when it is the recorded one; else saved and then journaled. resumed: the
      caller has the stored execution at hand. */
  function Ensure(c: Setting, t: Task, def: Definition, inputs: Fields, resumed: bool, saved: bool, o: WriteOutcome,
      loaded: bool): Task
  {
    var version := c.digest(def.snapshot);
    var recorded := if t.stored.Some? then t.stored.value.version else "";
    if recorded != "" && recorded != version then FailedAudit(t, None)
    else if recorded != "" then Begun(t, version, loaded)
    else if !saved then FailedAudit(t, if resumed then Some(version) else None)
    else
      var waiting := t.stored.Some? && t.stored.value.waiting;
      var t' := Entered(c.hash, t.(stored := Some(Stored(version, waiting)),
                                   version := if t.version == "" then version else t.version),
                    ManifestEvent(c.digest, c.trace, def.pipeline, def.snapshot, inputs), o);
      if Logged(t.journal, o) then Begun(t', version, loaded) else FailedAudit(t', None)
  }

  datatype Move =
    | Start(def: Definition, inputs: Fields, saved: bool, outcome: WriteOutcome, loaded: bool)
    | GrantCall(pipeline: string, inputs: Fields, outcome: WriteOutcome)
    | MakeCall
    | CompleteCall(pipeline: string, output: Option<Fields>, outcome: WriteOutcome)
    | Note(note: Event, outcome: WriteOutcome)
    | Pause(saved: bool, goesOn: bool)
    | Tell
    | Complete(saved: bool)
    | EndRun
    | PostDecision
    | Approve(def: Definition, inputs: Fields, saved: bool, resaved: bool, outcome: WriteOutcome, loaded: bool)
    | Reject(saved: bool)
    | AnswerCallback(def: Definition, inputs: Fields, saved: bool, noted: WriteOutcome, resaved: bool,
        outcome: WriteOutcome, loaded: bool)
    | OtherTask(event: Event, outcome: WriteOutcome)
    | CloseJournal
    | OpenJournal
    | Stop

  function Waiting(t: Task, waiting: bool): Task
  {
    t.(stored := if t.stored.Some? then Some(t.stored.value.(waiting := waiting)) else None)
  }

  /** A call is journaled before it is made, unless the run holds no execution. */
  function Granted(c: Setting, t: Task, pipeline: string, inputs: Fields, o: WriteOutcome): Task
  {
    if t.held.None? then t.(granted := t.granted + 1, dark := t.dark + 1)
    else
      var t' := Entered(c.hash, t, StartedEvent(c.digest, c.trace, pipeline, inputs), o);
      if Logged(t.journal, o) then t'.(granted := t.granted + 1) else FailedAudit(t', t.held)
  }

  function Recorded(c: Setting, t: Task, pipeline: string, output: Option<Fields>, o: WriteOutcome): Task
  {
    if t.held.None? then t
    else
      var t' := Entered(c.hash, t, CompletedEvent(c.digest, c.trace, pipeline, output), o);
      if Logged(t.journal, o) then t' else FailedAudit(t', t.held)
  }

  /** A pause, or a stored callback wait, copies the version of the execution that the run holds; a run
      that goes on holds what it stored. */
  function Paused(t: Task, saved: bool, goesOn: bool): Task
  {
    var version := if t.held.Some? then t.held.value else "";
    if !saved then t.(stored := None)
    else t.(stored := Some(Stored(version, true)), held := if goesOn then Some(version) else t.held,
            lost := t.lost || version == "")
  }

  /** persistCompletion: a record that was deleted is created anew, without a version. */
  function Completed(t: Task, saved: bool): Task
  {
    var t' := t.(told := if t.told > 0 then t.told - 1 else 0);
    if t.told == 0 || !saved then t'
    else if t.stored.None? then t'.(stored := Some(Stored("", false)), lost := true)
    else Waiting(t', false)
  }

  /** One step. The planner hands a task over to the verifier once, before anything is stored of its
      manifest; the verifier does one thing at a time; a call is made only once it is granted. */
  ghost function Take(c: Setting, t: Task, m: Move): Task
  {
    match m
    case Start(def, inputs, saved, o, loaded) =>
      if t.version != "" || t.running.Some? then t else Ensure(c, t, def, inputs, false, saved, o, loaded)
    case GrantCall(pipeline, inputs, o) => if t.running.None? then t else Granted(c, t, pipeline, inputs, o)
    case MakeCall => if t.granted == 0 then t else t.(granted := t.granted - 1, invoked := t.invoked + 1)
    case CompleteCall(pipeline, output, o) => if t.running.None? then t else Recorded(c, t, pipeline, output, o)
    case Note(e, o) => if e.traceID == c.trace && IsNote(e) then Entered(c.hash, t, e, o) else t
    case Pause(saved, goesOn) => if t.running.None? then t else Paused(t, saved, goesOn)
    case Tell => if t.running.None? then t else t.(told := t.told + 1)
    case Complete(saved) => Completed(t, saved)
    case EndRun => t.(running := None, held := None)
    case PostDecision => if t.stored.Some? && t.stored.value.waiting then t.(queued := t.queued + 1) else t
    case Approve(def, inputs, saved, resaved, o, loaded) =>
      if t.queued == 0 || t.running.Some? then t
      else
        var t' := t.(queued := t.queued - 1);
        if t.stored.None? then t'
        else if !saved then t'.(stored := None)
        else Ensure(c, t', def, inputs, true, resaved, o, loaded)
    case Reject(saved) =>
      if t.queued == 0 || t.running.Some? then t
      else if saved then Waiting(t.(queued := t.queued - 1), false)
      else t.(queued := t.queued - 1)
    case AnswerCallback(def, inputs, saved, noted, resaved, o, loaded) =>
      if t.running.Some? || t.stored.None? || !t.stored.value.waiting || !saved then t
      else
        var t' := Entered(c.hash, Waiting(t, false), CallbackEvent(c.trace, def.pipeline), noted);
        if Logged(t.journal, noted) then Ensure(c, t', def, inputs, true, resaved, o, loaded) else t'
    case OtherTask(e, o) => if e.traceID != c.trace then Entered(c.hash, t, e, o) else t
    case CloseJournal => t.(journal := AfterClose(t.journal))
    case OpenJournal => t.(journal := AfterOpen(c.hash, t.journal))
    case Stop =>
      t.(journal := t.journal.(memory := None), running := None, held := None, queued := 0, told := 0, granted := 0)
  }

  ghost function After(c: Setting, moves: seq<Move>): Task
  {
    if moves == [] then NEW_TASK else Take(c, After(c, moves[..|moves| - 1]), moves[|moves| - 1])
  }

  // ---------- what one step leaves, exactly ----------

  /** Is the stored task waiting? */
  predicate IsWaiting(t: Task)
  {
    t.stored.Some? && t.stored.value.waiting
  }

  /** A run begins with the definition that was recorded, or with one whose manifest is saved and journaled;
      else nothing runs, and what is stored waits for nothing. Only a new manifest is journaled. */
  lemma EnsureExactly(c: Setting, t: Task, def: Definition, inputs: Fields, resumed: bool, saved: bool,
      o: WriteOutcome, loaded: bool)
    ensures var t' := Ensure(c, t, def, inputs, resumed, saved, o, loaded);
      var version := c.digest(def.snapshot);
      var recorded := if t.stored.Some? then t.stored.value.version else "";
      var begins := if recorded != "" then recorded == version else saved && Logged(t.journal, o);
      && t'.running == (if begins then Some(version) else None)
      && t'.held == (if begins && loaded then Some(version) else None)
      && t'.journal == (if recorded != "" || !saved then t.journal
                        else var manifest := ManifestEvent(c.digest, c.trace, def.pipeline, def.snapshot, inputs);
                             AfterLog(c.hash, t.journal, manifest, o))
      && t'.stored == (if recorded != "" then Some(Stored(recorded, IsWaiting(t) && begins))
                       else if saved then Some(Stored(version, IsWaiting(t) && begins))
                       else if resumed then Some(Stored(version, false))
                       else if t.stored.Some? then Some(Stored("", false)) else None)
      && t'.queued == t.queued && t'.told == t.told && t'.granted == t.granted && t'.invoked == t.invoked
  {
  }

  /** A call goes ahead once it is journaled, or at once if the run holds no execution; if the journal
      refuses it, or its result, the run ends with the execution it held stored, waiting for nothing. */
  lemma CallExactly(c: Setting, t: Task, pipeline: string, inputs: Fields, output: Option<Fields>, o: WriteOutcome)
    requires t.running.Some?
    ensures var t' := Take(c, t, GrantCall(pipeline, inputs, o));
      var goes := t.held.None? || Logged(t.journal, o);
      && t'.granted == t.granted + (if goes then 1 else 0) && t'.invoked == t.invoked
      && t'.journal == (if t.held.None? then t.journal
                        else AfterLog(c.hash, t.journal, StartedEvent(c.digest, c.trace, pipeline, inputs), o))
      && RunGoesOn(t, t', goes)
    ensures var t' := Take(c, t, CompleteCall(pipeline, output, o));
      && t'.granted == t.granted && t'.invoked == t.invoked
      && t'.journal == (if t.held.None? then t.journal
                        else AfterLog(c.hash, t.journal, CompletedEvent(c.digest, c.trace, pipeline, output), o))
      && RunGoesOn(t, t', t.held.None? || Logged(t.journal, o))
  {
  }

  /** The run goes on as it was, or has ended with what it held stored and waiting for nothing. */
  ghost predicate RunGoesOn(t: Task, t': Task, goes: bool)
  {
    if goes then t'.running == t.running && t'.held == t.held && t'.stored == t.stored
    else t'.running == None && t'.held == None && t.held.Some? && t'.stored == Some(Stored(t.held.value, false))
  }

  /** A decision uses up one of those that are queued. A rejection leaves the task stored, waiting for
      nothing; an approval that cannot be saved deletes it; one that can begins a run, or does not, as any
      resumption of it. */
  lemma DecisionExactly(c: Setting, t: Task, def: Definition, inputs: Fields, saved: bool, resaved: bool,
      o: WriteOutcome, loaded: bool)
    requires t.queued > 0 && t.running.None?
    ensures var t' := Take(c, t, Reject(saved));
      && t'.queued == t.queued - 1 && t'.running.None? && t'.journal == t.journal
      && t'.stored == if t.stored.Some? && saved then Some(Stored(t.stored.value.version, false)) else t.stored
    ensures var t' := Take(c, t, Approve(def, inputs, saved, resaved, o, loaded));
      && t'.queued == t.queued - 1
      && (t.stored.None? || !saved ==> t'.running.None? && t'.stored == None && t'.journal == t.journal)
      && (t.stored.Some? && saved ==>
            t' == Ensure(c, t.(queued := t.queued - 1), def, inputs, true, resaved, o, loaded))
  {
  }

  /** A callback that is saved ends the wait; the run goes on only if the callback was journaled. */
  lemma CallbackExactly(c: Setting, t: Task, def: Definition, inputs: Fields, noted: WriteOutcome, resaved: bool,
      o: WriteOutcome, loaded: bool)
    requires t.running.None? && IsWaiting(t)
    ensures Take(c, t, AnswerCallback(def, inputs, false, noted, resaved, o, loaded)) == t
    ensures var t' := Take(c, t, AnswerCallback(def, inputs, true, noted, resaved, o, loaded));
      var ended := Stored(t.stored.value.version, false);
      var journal := AfterLog(c.hash, t.journal, Event(c.trace, def.pipeline, "callback.received", map[]), noted);
      if Logged(t.journal, noted) then
        t' == Ensure(c, t.(stored := Some(ended), journal := journal), def, inputs, true, resaved, o, loaded)
      else t'.running.None? && t'.stored == Some(ended) && t'.journal == journal
  {
  }

  /** A pause stores the version that the run holds, if any, and waits; if it cannot be saved the record is
      deleted. A completion that is saved leaves a record that waits for nothing, with the version that was
      stored; a record that was deleted has none. */
  lemma PauseAndCompletionExactly(c: Setting, t: Task, saved: bool, goesOn: bool)
    ensures t.running.Some? ==> var t' := Take(c, t, Pause(saved, goesOn));
      && t'.stored == (if saved then Some(Stored(if t.held.Some? then t.held.value else "", true)) else None)
      && t'.running == t.running && t'.journal == t.journal
      && t'.held == (if saved && goesOn then Some(t'.stored.value.version) else t.held)
    ensures t.told > 0 ==> var t' := Take(c, t, Complete(saved));
      && t'.told == t.told - 1 && t'.running == t.running && t'.held == t.held && t'.journal == t.journal
      && t'.stored == if !saved then t.stored
                      else Some(Stored(if t.stored.Some? then t.stored.value.version else "", false))
  {
  }

  // ---------- what every step keeps ----------

  /** What a file says of the task: digests that fit, one version, no call before the manifest. */
  ghost predicate Tells(c: Setting, f: File, version: string)
    requires forall l <- f.lines :: l.Good?
  {
    var records := Records(f.lines);
    && AllSound(c.digest, records, c.trace)
    && OneVersion(records, c.trace, version)
    && (Calls(records, c.trace) > 0 ==> HasManifest(records, c.trace))
    && (EndsUnterminated(f) ==> Fitting(c, f.tail.value.record.event, version, HasManifest(records, c.trace)))
  }

  /** An entry that may follow: of another task, or sound, of the one version, and no call before the manifest. */
  predicate Fitting(c: Setting, e: Event, version: string, manifest: bool)
  {
    e.traceID == c.trace ==>
      && Sound(c.digest, e)
      && (e.phase == PIPELINE_STARTED ==> VersionOf(e) == version)
      && (e.phase == TOOL_STARTED ==> manifest)
  }

  ghost predicate Manifested(c: Setting, t: Task)
    requires forall l <- t.journal.file.lines :: l.Good?
  {
    HasManifest(Records(t.journal.file.lines), c.trace)
  }

  ghost predicate Inv(c: Setting, t: Task)
  {
    && JournalInv(c.hash, t.journal)
    && Tells(c, t.journal.file, t.version)
    && Follows(t, Manifested(c, t), Calls(Records(t.journal.file.lines), c.trace))
  }

  /** What the store and the process hold of the task follows from what is journaled. */
  predicate Follows(t: Task, manifest: bool, calls: nat)
  {
    && (t.running.Some? ==> t.running.value == t.version != "" && manifest)
    && (t.running.None? ==> t.held.None?)
    && (t.held.Some? ==> t.held.value == t.version || (t.lost && t.held.value == ""))
    && (t.stored.Some? ==> t.version != "")
    && (t.stored.Some? ==> t.stored.value.version == t.version || (t.lost && manifest && t.stored.value.version == ""))
    && (t.stored.Some? && t.stored.value.waiting ==> manifest)
    && (t.queued > 0 || t.told > 0 || t.granted > 0 || t.invoked > 0 ==> t.version != "" && manifest)
    && calls + t.dark >= t.invoked + t.granted
  }

  /** What appending does to the file: nothing, one record more, or an unfinished record at its end. */
  ghost predicate Appends(f: File, f': File, e: Event)
    requires (forall l <- f.lines :: l.Good?) && (forall l <- f'.lines :: l.Good?)
  {
    || f' == f
    || (f'.tail == f.tail && |f'.lines| == |f.lines| + 1 && f'.lines[..|f.lines|] == f.lines &&
        f'.lines[|f.lines|].record.event == e)
    || (f'.lines == f.lines && (EndsUnterminated(f') ==> f'.tail.value.record.event == e))
  }

  lemma LogAppends(hash: HashFunction, j: Journal, e: Event, o: WriteOutcome)
    requires JournalInv(hash, j)
    ensures var j' := AfterLog(hash, j, e, o);
      && JournalInv(hash, j') && Appends(j.file, j'.file, e)
      && (Logged(j, o) ==> |j'.file.lines| == |j.file.lines| + 1)
  {
    StepKeepsJournal(hash, j, AuditChain.Step.Log(e, o));
  }

  lemma AppendTells(c: Setting, f: File, f': File, e: Event, version: string)
    requires (forall l <- f.lines :: l.Good?) && (forall l <- f'.lines :: l.Good?)
    requires Tells(c, f, version) && Appends(f, f', e)
    requires Fitting(c, e, version, HasManifest(Records(f.lines), c.trace))
    ensures Tells(c, f', version)
    ensures HasManifest(Records(f.lines), c.trace) ==> HasManifest(Records(f'.lines), c.trace)
    ensures Calls(Records(f'.lines), c.trace) >= Calls(Records(f.lines), c.trace)
    ensures |f'.lines| == |f.lines| + 1 ==>
      && (IsManifest(e, c.trace) ==> HasManifest(Records(f'.lines), c.trace))
      && (IsCall(e, c.trace) ==> Calls(Records(f'.lines), c.trace) == Calls(Records(f.lines), c.trace) + 1)
  {
    if |f'.lines| == |f.lines| + 1 {
      var n, records := |f.lines|, Records(f'.lines);
      assert records[..n] == Records(f.lines) && records[..n + 1] == records;
      OneMoreRecord(c.digest, records, n, c.trace, version);
    }
  }

  lemma LogKeeps(c: Setting, t: Task, e: Event, o: WriteOutcome)
    requires Inv(c, t) && Fitting(c, e, t.version, Manifested(c, t))
    ensures Inv(c, Entered(c.hash, t, e, o))
    ensures Manifested(c, t) ==> Manifested(c, Entered(c.hash, t, e, o))
    ensures Logged(t.journal, o) && IsManifest(e, c.trace) ==> Manifested(c, Entered(c.hash, t, e, o))
    ensures Logged(t.journal, o) && IsCall(e, c.trace) ==>
      Calls(Records(Entered(c.hash, t, e, o).journal.file.lines), c.trace) + t.dark > t.invoked + t.granted
  {
    LogAppends(c.hash, t.journal, e, o);
    AppendTells(c, t.journal.file, Entered(c.hash, t, e, o).journal.file, e, t.version);
  }

  /** Before a version is saved the file says nothing of the task's definition. */
  lemma NoVersionNoManifest(c: Setting, f: File, version: string)
    requires forall l <- f.lines :: l.Good?
    requires Tells(c, f, "")
    ensures Tells(c, f, version)
  {
  }

  lemma StartKeeps(c: Setting, t: Task, def: Definition, inputs: Fields, saved: bool, o: WriteOutcome, loaded: bool)
    requires Digests(c.digest) && Inv(c, t) && t.version == "" && t.running.None?
    ensures Inv(c, Ensure(c, t, def, inputs, false, saved, o, loaded))
  {
    if saved {
      var version := c.digest(def.snapshot);
      var e := ManifestEvent(c.digest, c.trace, def.pipeline, def.snapshot, inputs);
      var t1 := t.(stored := Some(Stored(version, false)), version := version);
      NoVersionNoManifest(c, t.journal.file, version);
      assert Inv(c, t1);
      assert Sound(c.digest, e) && VersionOf(e) == version;
      LogKeeps(c, t1, e, o);
    }
  }

  /** A task is resumed with the definition first saved, wherever its version was lost. */
  predicate Steady(c: Setting, t: Task, def: Definition)
  {
    t.stored.Some? && t.stored.value.version == "" ==> c.digest(def.snapshot) == t.version
  }

  lemma RemanifestKeeps(c: Setting, t: Task, def: Definition, inputs: Fields, o: WriteOutcome)
    requires Digests(c.digest) && Inv(c, t) && t.stored.Some? && t.running.None? && Manifested(c, t)
    requires c.digest(def.snapshot) == t.version
    ensures var t1 := t.(stored := Some(Stored(t.version, t.stored.value.waiting)));
      var e := ManifestEvent(c.digest, c.trace, def.pipeline, def.snapshot, inputs);
      Inv(c, Entered(c.hash, t1, e, o)) && Manifested(c, Entered(c.hash, t1, e, o))
  {
    var t1 := t.(stored := Some(Stored(t.version, t.stored.value.waiting)));
    var e := ManifestEvent(c.digest, c.trace, def.pipeline, def.snapshot, inputs);
    assert Inv(c, t1);
    assert Sound(c.digest, e) && VersionOf(e) == t.version;
    LogKeeps(c, t1, e, o);
  }

  lemma ResumeKeeps(c: Setting, t: Task, def: Definition, inputs: Fields, saved: bool, o: WriteOutcome, loaded: bool)
    requires Digests(c.digest) && Inv(c, t) && t.stored.Some? && t.running.None? && Manifested(c, t)
    requires Steady(c, t, def)
    ensures Inv(c, Ensure(c, t, def, inputs, true, saved, o, loaded))
  {
    if t.stored.value.version == "" && saved {
      RemanifestKeeps(c, t, def, inputs, o);
    }
  }

  lemma CallbackKeeps(c: Setting, t: Task, m: Move)
    requires Digests(c.digest) && Inv(c, t) && m.AnswerCallback? && Steady(c, t, m.def)
    ensures Inv(c, Take(c, t, m))
  {
    if t.running.None? && t.stored.Some? && t.stored.value.waiting && m.saved {
      var t1 := Waiting(t, false);
      var e := CallbackEvent(c.trace, m.def.pipeline);
      LogKeeps(c, t1, e, m.noted);
      if Logged(t.journal, m.noted) {
        ResumeKeeps(c, Entered(c.hash, t1, e, m.noted), m.def, m.inputs, m.resaved, m.outcome, m.loaded);
      }
    }
  }

  lemma GrantKeeps(c: Setting, t: Task, m: Move)
    requires Digests(c.digest) && Inv(c, t) && m.GrantCall?
    ensures Inv(c, Take(c, t, m))
  {
    if t.running.Some? && t.held.Some? {
      LogKeeps(c, t, StartedEvent(c.digest, c.trace, m.pipeline, m.inputs), m.outcome);
    }
  }

  lemma CompleteKeeps(c: Setting, t: Task, m: Move)
    requires Digests(c.digest) && Inv(c, t) && m.CompleteCall?
    ensures Inv(c, Take(c, t, m))
  {
    if t.running.Some? && t.held.Some? {
      LogKeeps(c, t, CompletedEvent(c.digest, c.trace, m.pipeline, m.output), m.outcome);
    }
  }

  /** Opening or closing the journal, or stopping, leaves the file as it is. */
  lemma JournalMoveKeeps(c: Setting, t: Task, m: Move)
    requires Inv(c, t) && (m.CloseJournal? || m.OpenJournal? || m.Stop?)
    requires m.OpenJournal? ==> !EndsUnterminated(t.journal.file)
    ensures Inv(c, Take(c, t, m))
  {
    var s := if m.CloseJournal? then Close else if m.OpenJournal? then Open else Crash;
    StepKeepsJournal(c.hash, t.journal, s);
    assert Take(c, t, m).journal == AuditChain.After(c.hash, t.journal, s);
    assert Take(c, t, m).journal.file == t.journal.file;
  }

  /** Moves that journal nothing. */
  predicate IsQuiet(m: Move)
  {
    m.MakeCall? || m.Pause? || m.Tell? || m.Complete? || m.EndRun? || m.PostDecision? || m.Reject?
  }

  lemma QuietMoveKeeps(c: Setting, t: Task, m: Move)
    requires Inv(c, t) && IsQuiet(m)
    ensures Inv(c, Take(c, t, m))
  {
    var t' := Take(c, t, m);
    assert t'.journal == t.journal && t'.version == t.version;
    QuietMoveFollows(c, t, m, Manifested(c, t), Calls(Records(t.journal.file.lines), c.trace));
  }

  lemma QuietMoveFollows(c: Setting, t: Task, m: Move, manifest: bool, calls: nat)
    requires Follows(t, manifest, calls) && IsQuiet(m)
    ensures Follows(Take(c, t, m), manifest, calls)
  {
  }

  lemma DecisionKeeps(c: Setting, t: Task, m: Move)
    requires Digests(c.digest) && Inv(c, t) && m.Approve? && Steady(c, t, m.def)
    ensures Inv(c, Take(c, t, m))
  {
    if t.queued > 0 && t.running.None? && t.stored.Some? && m.saved {
      ResumeKeeps(c, t.(queued := t.queued - 1), m.def, m.inputs, m.resaved, m.outcome, m.loaded);
    }
  }

  lemma NoteKeeps(c: Setting, t: Task, m: Move)
    requires Inv(c, t) && (m.Note? || m.OtherTask?)
    ensures Inv(c, Take(c, t, m))
  {
    var e := if m.Note? then m.note else m.event;
    if m.Note? <==> e.traceID == c.trace {
      if m.Note? ==> IsNote(e) {
        LogKeeps(c, t, e, m.outcome);
      }
    }
  }

  lemma MoveKeeps(c: Setting, t: Task, m: Move)
    requires Digests(c.digest) && Inv(c, t)
    requires m.OpenJournal? ==> !EndsUnterminated(t.journal.file)
    requires m.Approve? || m.AnswerCallback? ==> Steady(c, t, m.def)
    ensures Inv(c, Take(c, t, m))
  {
    if m.Start? {
      if t.version == "" && t.running.None? {
        StartKeeps(c, t, m.def, m.inputs, m.saved, m.outcome, m.loaded);
      }
    } else if m.GrantCall? {
      GrantKeeps(c, t, m);
    } else if m.CompleteCall? {
      CompleteKeeps(c, t, m);
    } else if m.Note? || m.OtherTask? {
      NoteKeeps(c, t, m);
    } else if m.Approve? {
      DecisionKeeps(c, t, m);
    } else if m.AnswerCallback? {
      CallbackKeeps(c, t, m);
    } else if m.CloseJournal? || m.OpenJournal? || m.Stop? {
      JournalMoveKeeps(c, t, m);
    } else {
      QuietMoveKeeps(c, t, m);
    }
  }

  /** No opening of the journal meets a complete record left without its newline by a failed write. */
  ghost predicate CleanRun(c: Setting, moves: seq<Move>)
  {
    moves != [] ==>
      var before := moves[..|moves| - 1];
      CleanRun(c, before) && (moves[|moves| - 1].OpenJournal? ==> !EndsUnterminated(After(c, before).journal.file))
  }

  /** Where a task is resumed whose version was lost, the definition is the one first saved. Within one
      process it is, as the configuration is read once. */
  ghost predicate SteadyRun(c: Setting, moves: seq<Move>)
  {
    moves != [] ==>
      var before, m := moves[..|moves| - 1], moves[|moves| - 1];
      SteadyRun(c, before) && (m.Approve? || m.AnswerCallback? ==> Steady(c, After(c, before), m.def))
  }

  lemma {:induction false} RunKeeps(c: Setting, moves: seq<Move>)
    requires Digests(c.digest) && CleanRun(c, moves) && SteadyRun(c, moves)
    ensures Inv(c, After(c, moves))
  {
    if moves != [] {
      RunKeeps(c, moves[..|moves| - 1]);
      MoveKeeps(c, After(c, moves[..|moves| - 1]), moves[|moves| - 1]);
    } else {
      assert Scanned(NEW_JOURNAL.file) == [];
    }
  }

  // ---------- the journal accounts for the run ----------

  /** After any run of starts, calls, pauses, completions, decisions, callbacks, failures, crashes and
      other tasks' entries: the calls that were made are recorded, but for those that a run without
      an execution made, and after the manifest; every manifest carries the one version. */
  lemma CallsAreAccountedFor(c: Setting, moves: seq<Move>)
    requires Digests(c.digest) && CleanRun(c, moves) && SteadyRun(c, moves)
    ensures var t := After(c, moves);
      && AcceptedLines(c.hash, t.journal.file.lines)
      && Calls(Records(t.journal.file.lines), c.trace) + t.dark >= t.invoked
      && (Calls(Records(t.journal.file.lines), c.trace) > 0 || t.invoked > 0 ==>
          Accounts(c.digest, Records(t.journal.file.lines), c.trace, t.version))
      && (t.stored.Some? && !t.lost ==> t.stored.value.version == t.version)
  {
    RunKeeps(c, moves);
  }

  /** VerifyExecutionFile accepts the execution of any trace with a call, whenever the file does not
      end in a torn line, with at least as many calls as were made and granted with an entry. */
  method VerifyRun(c: Setting, ghost moves: seq<Move>, lines: seq<Line>) returns (result: ExecutionVerification)
    requires Digests(c.digest) && CleanRun(c, moves) && SteadyRun(c, moves)
    requires var f := After(c, moves).journal.file; lines == Scanned(f) && (f.tail.Some? ==> f.tail.value.Good?)
    ensures var t := After(c, moves);
      t.invoked > 0 ==>
        result.valid && result.toolCalls + t.dark >= t.invoked && result.pipelineVersion == t.version
  {
    RunKeeps(c, moves);
    ScannedAccounts(c, After(c, moves));
    result := VerifyExecution(c.hash, c.digest, lines, c.trace);
  }

  lemma ScannedAccounts(c: Setting, t: Task)
    requires Inv(c, t) && (t.journal.file.tail.Some? ==> t.journal.file.tail.value.Good?)
    ensures var lines := Scanned(t.journal.file);
      && AcceptedLines(c.hash, lines)
      && Calls(Records(lines), c.trace) + t.dark >= t.invoked
      && (t.invoked > 0 ==> Accounts(c.digest, Records(lines), c.trace, t.version))
  {
    var f := t.journal.file;
    var records, n := Records(Scanned(f)), |f.lines|;
    if f.tail.None? {
      assert Scanned(f) == f.lines;
    } else {
      assert records[..n] == Records(f.lines) && records[..n + 1] == records;
      OneMoreRecord(c.digest, records, n, c.trace, t.version);
    }
  }

  // ---------- what a changed definition does ----------

  /** With an injective digest a resumed run has the very definition that its manifest records. */
  lemma ResumedDefinitionIsRecorded(c: Setting, moves: seq<Move>, def: Definition, i: nat)
    requires Digests(c.digest) && CleanRun(c, moves) && SteadyRun(c, moves)
    requires forall a, b :: c.digest(a) == c.digest(b) ==> a == b
    requires After(c, moves).running == Some(c.digest(def.snapshot))
    requires var f := After(c, moves).journal.file;
      (forall l <- f.lines :: l.Good?) && i < |f.lines| && IsManifest(f.lines[i].record.event, c.trace)
    ensures FieldOf(After(c, moves).journal.file.lines[i].record.event, "pipeline_snapshot") == def.snapshot
  {
    RunKeeps(c, moves);
    var records := Records(After(c, moves).journal.file.lines);
    assert Sound(c.digest, records[i].event) && VersionOf(records[i].event) == c.digest(def.snapshot);
  }

  // ---------- exactly when calls are recorded ----------

  /** No load that began a run failed. */
  ghost predicate LoadsWell(c: Setting, moves: seq<Move>)
  {
    && (After(c, moves).running.Some? ==> After(c, moves).held.Some?)
    && (moves != [] ==> LoadsWell(c, moves[..|moves| - 1]))
  }

  /** As many calls are recorded as were made. */
  ghost predicate AllRecorded(c: Setting, t: Task)
  {
    AcceptedLines(c.hash, t.journal.file.lines) && Calls(Records(t.journal.file.lines), c.trace) >= t.invoked
  }

  /** Calls, granted and made, one after the other. */
  function Calling(n: nat): seq<Move>
  {
    if n == 0 then [] else Calling(n - 1) + [GrantCall("", map[], Written), MakeCall]
  }

  lemma OneMoveMore(c: Setting, moves: seq<Move>, m: Move)
    ensures After(c, moves + [m]) == Take(c, After(c, moves), m)
  {
    assert (moves + [m])[..|moves|] == moves;
  }

  lemma TwoMovesMore(c: Setting, moves: seq<Move>, a: Move, b: Move)
    ensures After(c, moves + [a, b]) == Take(c, Take(c, After(c, moves), a), b)
  {
    OneMoveMore(c, moves, a);
    OneMoveMore(c, moves + [a], b);
    assert moves + [a] + [b] == moves + [a, b];
  }

  lemma OneCallMore(c: Setting, moves: seq<Move>, n: nat)
    requires n > 0
    ensures moves + Calling(n) == moves + Calling(n - 1) + [GrantCall("", map[], Written)] + [MakeCall]
  {
  }

  lemma DarkCall(c: Setting, t: Task)
    requires t.running.Some? && t.held.None?
    ensures Take(c, Take(c, t, GrantCall("", map[], Written)), MakeCall)
         == t.(invoked := t.invoked + 1, dark := t.dark + 1)
  {
  }

  /** A run that holds no execution makes calls that leave nothing in the journal. */
  lemma {:induction false} DarkCalls(c: Setting, moves: seq<Move>, n: nat)
    requires After(c, moves).running.Some? && After(c, moves).held.None?
    ensures var t := After(c, moves);
      After(c, moves + Calling(n)) == t.(invoked := t.invoked + n, dark := t.dark + n)
  {
    if n == 0 {
      assert moves + Calling(0) == moves;
    } else {
      DarkCalls(c, moves, n - 1);
      DarkCall(c, After(c, moves + Calling(n - 1)));
      TwoMovesMore(c, moves + Calling(n - 1), GrantCall("", map[], Written), MakeCall);
      assert moves + Calling(n) == moves + Calling(n - 1) + [GrantCall("", map[], Written), MakeCall];
    }
  }

  /** What calls add to a run keeps its conditions. */
  lemma {:induction false} CallingKeeps(c: Setting, moves: seq<Move>, n: nat)
    requires CleanRun(c, moves) && SteadyRun(c, moves) && LoadsWell(c, moves)
    ensures var more := moves + Calling(n); CleanRun(c, more) && SteadyRun(c, more) && LoadsWell(c, more)
  {
    if n == 0 {
      assert moves + Calling(0) == moves;
    } else {
      CallingKeeps(c, moves, n - 1);
      OneCallMore(c, moves, n);
      OneMoreKeeps(c, moves + Calling(n - 1), GrantCall("", map[], Written));
      OneMoreKeeps(c, moves + Calling(n - 1) + [GrantCall("", map[], Written)], MakeCall);
    }
  }

  lemma OneMoreKeeps(c: Setting, moves: seq<Move>, m: Move)
    requires CleanRun(c, moves) && SteadyRun(c, moves) && LoadsWell(c, moves) && (m.GrantCall? || m.MakeCall?)
    ensures CleanRun(c, moves + [m]) && SteadyRun(c, moves + [m]) && LoadsWell(c, moves + [m])
  {
    OneMoveMore(c, moves, m);
    assert (moves + [m])[..|moves|] == moves;
  }

  lemma {:induction false} PrefixKeeps(c: Setting, moves: seq<Move>, k: nat)
    requires k <= |moves|
    ensures CleanRun(c, moves) ==> CleanRun(c, moves[..k])
    ensures SteadyRun(c, moves) ==> SteadyRun(c, moves[..k])
    ensures LoadsWell(c, moves) ==> LoadsWell(c, moves[..k])
    decreases |moves|
  {
    if k == |moves| {
      assert moves[..k] == moves;
    } else {
      PrefixKeeps(c, moves[..|moves| - 1], k);
      assert moves[..|moves| - 1][..k] == moves[..k];
    }
  }

  lemma {:induction false} LoadedIsLit(c: Setting, moves: seq<Move>)
    requires LoadsWell(c, moves)
    ensures After(c, moves).dark == 0
  {
    if moves != [] {
      LoadedIsLit(c, moves[..|moves| - 1]);
      MoveKeepsLit(c, After(c, moves[..|moves| - 1]), moves[|moves| - 1]);
    }
  }

  lemma MoveKeepsLit(c: Setting, t: Task, m: Move)
    requires t.running.Some? ==> t.held.Some?
    ensures Take(c, t, m).dark == t.dark
  {
  }

  lemma {:induction false} FirstDark(c: Setting, moves: seq<Move>) returns (k: nat)
    requires !LoadsWell(c, moves)
    ensures k <= |moves| && After(c, moves[..k]).running.Some? && After(c, moves[..k]).held.None?
  {
    if After(c, moves).running.Some? && After(c, moves).held.None? {
      k := |moves|;
      assert moves[..k] == moves;
    } else {
      k := FirstDark(c, moves[..|moves| - 1]);
      assert moves[..|moves| - 1][..k] == moves[..k];
    }
  }

  /** Whatever calls follow at any time, as many are recorded as were made, if and only if no load that
      began a run failed. */
  lemma CallsAreRecordedExactly(c: Setting, moves: seq<Move>)
    requires Digests(c.digest) && CleanRun(c, moves) && SteadyRun(c, moves)
    ensures LoadsWell(c, moves)
       <==> forall k: nat, n: nat | k <= |moves| :: AllRecorded(c, After(c, moves[..k] + Calling(n)))
  {
    if LoadsWell(c, moves) {
      forall k: nat, n: nat | k <= |moves|
        ensures AllRecorded(c, After(c, moves[..k] + Calling(n)))
      {
        PrefixKeeps(c, moves, k);
        CallingKeeps(c, moves[..k], n);
        LoadedIsLit(c, moves[..k] + Calling(n));
        CallsAreAccountedFor(c, moves[..k] + Calling(n));
      }
    } else {
      var k := FirstDark(c, moves);
      PrefixKeeps(c, moves, k);
      RunKeeps(c, moves[..k]);
      var n := Calls(Records(After(c, moves[..k]).journal.file.lines), c.trace) + 1;
      DarkCalls(c, moves[..k], n);
      assert !AllRecorded(c, After(c, moves[..k] + Calling(n)));
    }
  }

  // ---------- exactly when the version is kept ----------

  predicate KeepsVersion(t: Task)
  {
    t.stored.Some? ==> t.stored.value.version == t.version
  }

  /** The move stores a record without the version: a completion that meets a deleted record, or a pause
      of a run that holds no execution, or one that had no version. */
  predicate LosesVersion(t: Task, m: Move)
  {
    || (m.Complete? && m.saved && t.told > 0 && t.stored.None?)
    || (m.Pause? && m.saved && t.running.Some? && (t.held.None? || t.held.value == ""))
  }

  ghost predicate NeverLoses(c: Setting, moves: seq<Move>)
  {
    moves != [] ==>
      var before := moves[..|moves| - 1];
      NeverLoses(c, before) && !LosesVersion(After(c, before), moves[|moves| - 1])
  }

  lemma {:induction false} NotLost(c: Setting, moves: seq<Move>)
    requires NeverLoses(c, moves)
    ensures !After(c, moves).lost
  {
    if moves != [] {
      NotLost(c, moves[..|moves| - 1]);
      MoveLosesExactly(c, After(c, moves[..|moves| - 1]), moves[|moves| - 1]);
    }
  }

  lemma MoveLosesExactly(c: Setting, t: Task, m: Move)
    ensures Take(c, t, m).lost <==> t.lost || LosesVersion(t, m)
  {
  }

  lemma {:induction false} PrefixNeverLoses(c: Setting, moves: seq<Move>, k: nat)
    requires k <= |moves| && NeverLoses(c, moves)
    ensures NeverLoses(c, moves[..k])
    decreases |moves|
  {
    if k == |moves| {
      assert moves[..k] == moves;
    } else {
      PrefixNeverLoses(c, moves[..|moves| - 1], k);
      assert moves[..|moves| - 1][..k] == moves[..k];
    }
  }

  lemma {:induction false} FirstLoss(c: Setting, moves: seq<Move>) returns (k: nat)
    requires !NeverLoses(c, moves)
    ensures k < |moves| && LosesVersion(After(c, moves[..k]), moves[k])
  {
    var last := |moves| - 1;
    if LosesVersion(After(c, moves[..last]), moves[last]) {
      k := last;
    } else {
      k := FirstLoss(c, moves[..last]);
      assert moves[..last][..k] == moves[..k];
    }
  }

  lemma NeverLosesKeeps(c: Setting, moves: seq<Move>, k: nat)
    requires Digests(c.digest) && CleanRun(c, moves) && SteadyRun(c, moves) && NeverLoses(c, moves) && k <= |moves|
    ensures KeepsVersion(After(c, moves[..k]))
  {
    PrefixKeeps(c, moves, k);
    PrefixNeverLoses(c, moves, k);
    NotLost(c, moves[..k]);
    RunKeeps(c, moves[..k]);
  }

  lemma LossIsSeen(c: Setting, t: Task, m: Move)
    requires Inv(c, t) && LosesVersion(t, m)
    ensures !KeepsVersion(Take(c, t, m))
  {
  }

  lemma LossBreaks(c: Setting, moves: seq<Move>) returns (k: nat)
    requires Digests(c.digest) && CleanRun(c, moves) && SteadyRun(c, moves) && !NeverLoses(c, moves)
    ensures k <= |moves| && !KeepsVersion(After(c, moves[..k]))
  {
    k := FirstLoss(c, moves);
    PrefixKeeps(c, moves, k);
    RunKeeps(c, moves[..k]);
    LossIsSeen(c, After(c, moves[..k]), moves[k]);
    assert moves[..k + 1] == moves[..k] + [moves[k]];
    OneMoveMore(c, moves[..k], moves[k]);
    k := k + 1;
  }

  /** At every time the store has the version first saved, if and only if no completion met a deleted
      record, and no run without an execution, or with one without a version, was paused. */
  lemma VersionIsKeptExactly(c: Setting, moves: seq<Move>)
    requires Digests(c.digest) && CleanRun(c, moves) && SteadyRun(c, moves)
    ensures NeverLoses(c, moves) <==> forall k: nat | k <= |moves| :: KeepsVersion(After(c, moves[..k]))
  {
    if NeverLoses(c, moves) {
      forall k: nat | k <= |moves|
        ensures KeepsVersion(After(c, moves[..k]))
      {
        NeverLosesKeeps(c, moves, k);
      }
    } else {
      var k := LossBreaks(c, moves);
    }
  }

  // ---------- runs that are not accounted for ----------

  /** The journal is open, and its lines record these events. */
  ghost predicate Writing(c: Setting, j: Journal, events: seq<Event>)
  {
    && JournalInv(c.hash, j) && j.memory.Some? && !j.memory.value.failed && j.memory.value.open
    && |j.file.lines| == |events|
    && forall i | 0 <= i < |events| :: Records(j.file.lines)[i].event == events[i]
  }

  lemma WritesOne(c: Setting, j: Journal, events: seq<Event>, e: Event)
    requires Writing(c, j, events)
    ensures Writing(c, AfterLog(c.hash, j, e, Written), events + [e]) && Logged(j, Written)
  {
    StepKeepsJournal(c.hash, j, AuditChain.Step.Log(e, Written));
    assert AfterLog(c.hash, j, e, Written).file.lines[..|events|] == j.file.lines;
  }

  /** A new process opens the journal. */
  lemma OpensAgain(c: Setting, j: Journal, events: seq<Event>)
    requires JournalInv(c.hash, j) && j.file.tail.None? && |j.file.lines| == |events|
    requires forall i | 0 <= i < |events| :: Records(j.file.lines)[i].event == events[i]
    ensures Writing(c, AfterOpen(c.hash, j), events)
  {
    StepKeepsJournal(c.hash, j, AuditChain.Step.Open);
    assert Scanned(j.file) == j.file.lines;
  }

  lemma FreshJournal(c: Setting) returns (t: Task)
    ensures t == After(c, [OpenJournal]) && t == NEW_TASK.(journal := t.journal) && Writing(c, t.journal, [])
  {
    OneMoveMore(c, [], OpenJournal);
    assert [] + [OpenJournal] == [OpenJournal];
    t := Take(c, NEW_TASK, OpenJournal);
    assert Scanned(NEW_JOURNAL.file) == [];
    OpensAgain(c, NEW_JOURNAL, []);
  }

  /** A start that goes well, but perhaps for the load. */
  lemma Starts(c: Setting, t: Task, def: Definition, inputs: Fields, loaded: bool)
    requires t == NEW_TASK.(journal := t.journal) && Writing(c, t.journal, []) && c.digest(def.snapshot) != ""
    ensures var t' := Take(c, t, Start(def, inputs, true, Written, loaded));
      var version := c.digest(def.snapshot);
      && t' == Begun(t.(journal := t'.journal, stored := Some(Stored(version, false)), version := version), version,
                     loaded)
      && Writing(c, t'.journal, [ManifestEvent(c.digest, c.trace, def.pipeline, def.snapshot, inputs)])
  {
    var e := ManifestEvent(c.digest, c.trace, def.pipeline, def.snapshot, inputs);
    WritesOne(c, t.journal, [], e);
    assert [] + [e] == [e];
  }

  /** The load that begins the run fails, and a call that is made leaves nothing in the journal. */
  lemma FailedLoadIsUnrecorded(c: Setting, def: Definition, inputs: Fields) returns (moves: seq<Move>)
    requires c.digest(def.snapshot) != ""
    ensures var t := After(c, moves);
      && t.invoked == 1 && AcceptedLines(c.hash, t.journal.file.lines)
      && Calls(Records(t.journal.file.lines), c.trace) == 0
  {
    var t0 := FreshJournal(c);
    var start := Start(def, inputs, true, Written, false);
    OneMoveMore(c, [OpenJournal], start);
    Starts(c, t0, def, inputs, false);
    var t1 := After(c, [OpenJournal] + [start]);
    DarkCalls(c, [OpenJournal] + [start], 1);
    moves := [OpenJournal] + [start] + Calling(1);
    assert Records(t1.journal.file.lines)[..0] == [];
  }

  /** The analyst has been told, a gate has stored a wait on which someone decides, and another gate's
      failing write deletes the record. */
  function DeletingMoves(): seq<Move>
  {
    [Tell, Pause(true, false), PostDecision, Pause(false, false), EndRun]
  }

  lemma TellsAndPauses(c: Setting, t: Task, version: string)
    requires t.running == Some(version) && t.held == Some(version)
    ensures Take(c, Take(c, t, Tell), Pause(true, false))
         == t.(told := t.told + 1, stored := Some(Stored(version, true)), lost := t.lost || version == "")
  {
  }

  lemma PostsAndDeletes(c: Setting, t: Task)
    requires t.running.Some? && t.stored.Some? && t.stored.value.waiting
    ensures Take(c, Take(c, t, PostDecision), Pause(false, false)) == t.(queued := t.queued + 1, stored := None)
  {
  }

  lemma DeletesRecord(c: Setting, moves: seq<Move>, version: string)
    requires var t := After(c, moves);
      t.running == Some(version) && t.held == Some(version) && t.queued == 0 && t.told == 0
    ensures var t, t' := After(c, moves), After(c, moves + DeletingMoves());
      && t'.running.None? && t'.stored.None? && t'.queued == 1 && t'.told == 1
      && t'.journal == t.journal && t'.version == t.version
  {
    var two := moves + [Tell, Pause(true, false)];
    TwoMovesMore(c, moves, Tell, Pause(true, false));
    TellsAndPauses(c, After(c, moves), version);
    var four := two + [PostDecision, Pause(false, false)];
    TwoMovesMore(c, two, PostDecision, Pause(false, false));
    PostsAndDeletes(c, After(c, two));
    OneMoveMore(c, four, EndRun);
    assert four + [EndRun] == moves + DeletingMoves();
  }

  /** The completion creates a deleted record anew, without a version, and the decision that is queued
      makes the resumption journal a second manifest. */
  lemma CompletionLosesVersion(c: Setting, def: Definition, inputs: Fields)
      returns (before: seq<Move>, after: seq<Move>)
    requires c.digest(def.snapshot) != ""
    ensures before <= after && After(c, before).stored == Some(Stored("", false)) && After(c, before).version != ""
    ensures var lines := After(c, after).journal.file.lines;
      && AcceptedLines(c.hash, lines) && |lines| == 2
      && IsManifest(lines[0].record.event, c.trace) && IsManifest(lines[1].record.event, c.trace)
  {
    var t0 := FreshJournal(c);
    var start := Start(def, inputs, true, Written, true);
    OneMoveMore(c, [OpenJournal], start);
    Starts(c, t0, def, inputs, true);
    before := [OpenJournal] + [start];
    DeletesRecord(c, before, c.digest(def.snapshot));
    OneMoveMore(c, before + DeletingMoves(), Complete(true));
    before := before + DeletingMoves() + [Complete(true)];
    var manifest := ManifestEvent(c.digest, c.trace, def.pipeline, def.snapshot, inputs);
    after := ResumesAnew(c, before, [manifest], def, inputs);
  }

  /** A queued decision resumes a task whose version was lost. */
  lemma ResumesAnew(c: Setting, moves: seq<Move>, events: seq<Event>, def: Definition, inputs: Fields)
      returns (more: seq<Move>)
    requires var t := After(c, moves);
      && t.running.None? && t.queued > 0 && t.stored.Some? && t.stored.value.version == ""
      && Writing(c, t.journal, events)
    ensures moves <= more
    ensures Writing(c, After(c, more).journal,
                    events + [ManifestEvent(c.digest, c.trace, def.pipeline, def.snapshot, inputs)])
  {
    var approve := Approve(def, inputs, true, true, Written, true);
    OneMoveMore(c, moves, approve);
    WritesOne(c, After(c, moves).journal, events, ManifestEvent(c.digest, c.trace, def.pipeline, def.snapshot, inputs));
    more := moves + [approve];
  }

  /** A run that holds no execution pauses, and the stored record has no version: after a restart with
      another definition the task is resumed all the same, and its execution does not verify. */
  lemma DarkPauseLosesVersion(c: Setting, def: Definition, other: Definition, inputs: Fields)
      returns (moves: seq<Move>)
    requires Digests(c.digest) && c.digest(def.snapshot) != c.digest(other.snapshot)
    ensures var lines := After(c, moves).journal.file.lines;
      AcceptedLines(c.hash, lines) && !Accounted(c.digest, Records(lines), c.trace)
  {
    var t0 := FreshJournal(c);
    var start := Start(def, inputs, true, Written, false);
    OneMoveMore(c, [OpenJournal], start);
    Starts(c, t0, def, inputs, false);
    var first := ManifestEvent(c.digest, c.trace, def.pipeline, def.snapshot, inputs);
    var second := ManifestEvent(c.digest, c.trace, other.pipeline, other.snapshot, inputs);
    moves := PausesAndRestarts(c, [OpenJournal] + [start], [first]);
    moves := ResumesAnew(c, moves, [first], other, inputs);
    TwoVersions(c, Records(After(c, moves).journal.file.lines), first, second);
  }

  lemma PausesAndRestarts(c: Setting, moves: seq<Move>, events: seq<Event>) returns (more: seq<Move>)
    requires After(c, moves).running.Some? && After(c, moves).held.None? && Writing(c, After(c, moves).journal, events)
    ensures moves <= more
    ensures var t := After(c, more);
      && t.running.None? && t.queued > 0 && t.stored == Some(Stored("", true)) && Writing(c, t.journal, events)
  {
    var stopped := moves + [Pause(true, false), Stop];
    TwoMovesMore(c, moves, Pause(true, false), Stop);
    Restarts(c, After(c, moves), After(c, stopped), events);
    TwoMovesMore(c, stopped, OpenJournal, PostDecision);
    more := stopped + [OpenJournal, PostDecision];
  }

  lemma Restarts(c: Setting, t: Task, stopped: Task, events: seq<Event>)
    requires t.running.Some? && t.held.None? && Writing(c, t.journal, events)
    requires stopped == Take(c, Take(c, t, Pause(true, false)), Stop)
    ensures var t' := Take(c, Take(c, stopped, OpenJournal), PostDecision);
      && t'.running.None? && t'.queued > 0 && t'.stored == Some(Stored("", true)) && Writing(c, t'.journal, events)
  {
    OpensAgain(c, t.journal.(memory := None), events);
  }

  lemma TwoVersions(c: Setting, records: seq<Record>, first: Event, second: Event)
    requires |records| == 2 && records[0].event == first && records[1].event == second
    requires IsManifest(first, c.trace) && IsManifest(second, c.trace) && VersionOf(first) != VersionOf(second)
    ensures !Accounted(c.digest, records, c.trace)
  {
    assert IsManifest(records[..1][0].event, c.trace);
    NotAccounted(c.digest, records, 1, c.trace, VersionOf(first));
  }

  /** A start that saves its version but cannot encode its manifest, and a new process. */
  lemma UnjournaledStart(c: Setting, def: Definition, inputs: Fields) returns (t: Task)
    requires c.digest(def.snapshot) != ""
    ensures t == Take(c, Take(c, Ensure(c, After(c, [OpenJournal]), def, inputs, false, true, NotEncoded, true), Stop),
        OpenJournal)
    ensures Writing(c, t.journal, []) && t.running.None? && t.invoked == 0 && t.granted == 0
    ensures t.stored == Some(Stored(c.digest(def.snapshot), false))
  {
    var t0 := FreshJournal(c);
    var t1 := Take(c, Ensure(c, t0, def, inputs, false, true, NotEncoded, true), Stop);
    t := Take(c, t1, OpenJournal);
    assert t1.journal.file == t0.journal.file;
    OpensAgain(c, t1.journal, []);
  }

  /** The condition that a task is handed over once is needed: a start that saves its version but
      cannot journal its manifest, a new process, and a second start end in a call without manifest. */
  lemma SecondStartIsUnaccounted(c: Setting, def: Definition, inputs: Fields)
    requires c.digest(def.snapshot) != ""
    ensures var t1 := Ensure(c, After(c, [OpenJournal]), def, inputs, false, true, NotEncoded, true);
      var t2 := Take(c, Take(c, t1, Stop), OpenJournal);
      var t3 := Ensure(c, t2, def, inputs, false, true, Written, true);
      var t4 := Take(c, Take(c, t3, GrantCall(def.pipeline, inputs, Written)), MakeCall);
      && t4.invoked == 1 && AcceptedLines(c.hash, t4.journal.file.lines)
      && Calls(Records(t4.journal.file.lines), c.trace) == 1 && !HasManifest(Records(t4.journal.file.lines), c.trace)
  {
    var t2 := UnjournaledStart(c, def, inputs);
    var t3 := Ensure(c, t2, def, inputs, false, true, Written, true);
    assert t3 == Begun(t2, c.digest(def.snapshot), true);
    CallWithoutManifest(c, t3, def.pipeline, inputs);
  }

  lemma CallWithoutManifest(c: Setting, t: Task, pipeline: string, inputs: Fields)
    requires Writing(c, t.journal, []) && t.running.Some? && t.held.Some? && t.invoked == 0 && t.granted == 0
    ensures var t' := Take(c, Take(c, t, GrantCall(pipeline, inputs, Written)), MakeCall);
      && t'.invoked == 1 && AcceptedLines(c.hash, t'.journal.file.lines)
      && Calls(Records(t'.journal.file.lines), c.trace) == 1 && !HasManifest(Records(t'.journal.file.lines), c.trace)
  {
    var e := StartedEvent(c.digest, c.trace, pipeline, inputs);
    WritesOne(c, t.journal, [], e);
    var t' := Take(c, Take(c, t, GrantCall(pipeline, inputs, Written)), MakeCall);
    assert Records(t'.journal.file.lines)[..0] == [];
  }

  // ---------- the verifier as it works on a task ----------

  class TaskRun {
    const trace: string
    const digest: Digest
    const chain: FileChain
    var stored: Option<Stored>
    var running: Option<string>
    var held: Option<string>
    var version: string
    var queued: nat
    var told: nat
    var granted: nat
    var invoked: nat
    var dark: nat
    var lost: bool

    ghost function Contents(): Task
      reads this, chain
    {
      Task(chain.Contents(), stored, running, held, queued, told, granted, version, invoked, dark, lost)
    }

    function Set(): Setting
    {
      Setting(chain.hash, digest, trace)
    }

    constructor (trace: string, digest: Digest, chain: FileChain)
      ensures this.chain == chain && Set() == Setting(chain.hash, digest, trace)
      ensures Contents() == NEW_TASK.(journal := chain.Contents())
    {
      this.trace, this.digest, this.chain := trace, digest, chain;
      stored, running, held, version, queued, told, granted := None, None, None, "", 0, 0, 0;
      invoked, dark, lost := 0, 0, false;
    }

    method LogLifecycleAudit(e: Event, o: WriteOutcome) returns (ok: bool)
      modifies this, chain
      ensures Contents() == Entered(chain.hash, old(Contents()), e, o)
      ensures ok <==> Logged(old(chain.Contents()), o)
    {
      chain.LogEvent(e, o);
      ok := !chain.failed;
    }

    method FailAuditExecution(atHand: Option<string>)
      modifies this
      ensures Contents() == FailedAudit(old(Contents()), atHand)
    {
      if atHand.Some? {
        stored := Some(Stored(atHand.value, false));
      } else if stored.Some? {
        stored := Some(stored.value.(waiting := false));
      }
      running, held := None, None;
    }

    /** The load that begins a run. */
    method Begin(current: string, loaded: bool)
      modifies this`running, this`held
      ensures Contents() == Begun(old(Contents()), current, loaded)
    {
      running := Some(current);
      held := if loaded then Some(current) else None;
    }

    method SaveManifest(current: string)
      modifies this`stored, this`version
      ensures var waiting := old(stored).Some? && old(stored).value.waiting;
        Contents() == old(Contents()).(stored := Some(Stored(current, waiting)),
          version := if old(version) == "" then current else old(version))
    {
      stored := Some(Stored(current, stored.Some? && stored.value.waiting));
      if version == "" {
        version := current;
      }
    }

    /** A task with a recorded version goes on with the definition that has it, and no other. */
    method ResumeRecorded(current: string, loaded: bool) returns (ok: bool)
      requires running.None? && stored.Some?
      modifies this
      ensures ok <==> old(stored).value.version == current
      ensures Contents() == if ok then Begun(old(Contents()), current, loaded) else FailedAudit(old(Contents()), None)
    {
      ok := stored.value.version == current;
      if ok {
        Begin(current, loaded);
      } else {
        FailAuditExecution(None);
      }
    }

    /** ensurePipelineManifest, and the load that begins the run. */
    method EnsurePipelineManifest(def: Definition, inputs: Fields, resumed: bool, saved: bool, o: WriteOutcome,
        loaded: bool) returns (ok: bool)
      requires running.None?
      modifies this, chain
      ensures Contents() == Ensure(Set(), old(Contents()), def, inputs, resumed, saved, o, loaded)
      ensures ok <==> running.Some?
    {
      var current := digest(def.snapshot);
      if stored.Some? && stored.value.version != "" {
        ok := ResumeRecorded(current, loaded);
        return;
      }
      ok := RecordManifest(def, inputs, resumed, saved, o, loaded);
    }

    /** A task without a recorded version gets that of the definition. */
    method RecordManifest(def: Definition, inputs: Fields, resumed: bool, saved: bool, o: WriteOutcome, loaded: bool)
        returns (ok: bool)
      requires running.None? && (stored.Some? ==> stored.value.version == "")
      modifies this, chain
      ensures Contents() == Ensure(Set(), old(Contents()), def, inputs, resumed, saved, o, loaded)
      ensures ok <==> running.Some?
    {
      var current := digest(def.snapshot);
      if !saved {
        FailAuditExecution(if resumed then Some(current) else None);
        return false;
      }
      SaveManifest(current);
      ok := JournalManifest(def, inputs, o, loaded);
    }

    method JournalManifest(def: Definition, inputs: Fields, o: WriteOutcome, loaded: bool) returns (ok: bool)
      modifies this, chain
      ensures var t' := Entered(chain.hash, old(Contents()),
                  ManifestEvent(digest, trace, def.pipeline, def.snapshot, inputs), o);
        Contents() == if ok then Begun(t', digest(def.snapshot), loaded) else FailedAudit(t', None)
      ensures ok <==> Logged(old(chain.Contents()), o)
    {
      ok := LogLifecycleAudit(ManifestEvent(digest, trace, def.pipeline, def.snapshot, inputs), o);
      if ok {
        Begin(digest(def.snapshot), loaded);
      } else {
        FailAuditExecution(None);
      }
    }

    /** Journals a call before it is made; without an execution there is nothing to journal. */
    method StartCall(pipeline: string, inputs: Fields, o: WriteOutcome) returns (ok: bool)
      requires running.Some?
      modifies this, chain
      ensures Contents() == Take(Set(), old(Contents()), GrantCall(pipeline, inputs, o))
      ensures ok <==> running.Some?
    {
      if held.None? {
        granted, dark := granted + 1, dark + 1;
        return true;
      }
      ok := LogLifecycleAudit(StartedEvent(digest, trace, pipeline, inputs), o);
      if !ok {
        FailAuditExecution(held);
        return false;
      }
      granted := granted + 1;
    }

    method FinishCall(pipeline: string, output: Option<Fields>, o: WriteOutcome) returns (ok: bool)
      requires running.Some?
      modifies this, chain
      ensures Contents() == Take(Set(), old(Contents()), CompleteCall(pipeline, output, o))
      ensures ok <==> running.Some?
    {
      if held.None? {
        return true;
      }
      ok := LogLifecycleAudit(CompletedEvent(digest, trace, pipeline, output), o);
      if !ok {
        FailAuditExecution(held);
      }
    }

    /** The execution a pause or a callback wait leaves behind. */
    method SavePause(saved: bool, goesOn: bool)
      requires running.Some?
      modifies this
      ensures Contents() == Take(Set(), old(Contents()), Pause(saved, goesOn))
    {
      if !saved {
        stored := None;
        return;
      }
      var copied := "";
      if held.Some? {
        copied := held.value;
      }
      stored, lost := Some(Stored(copied, true)), lost || copied == "";
      if goesOn {
        held := Some(copied);
      }
    }

    /** persistCompletion of the analyst. */
    method PersistCompletion(saved: bool)
      requires told > 0
      modifies this
      ensures Contents() == Take(Set(), old(Contents()), Complete(saved))
    {
      told := told - 1;
      if !saved {
        return;
      }
      if stored.None? {
        stored, lost := Some(Stored("", false)), true;
      } else {
        stored := Some(stored.value.(waiting := false));
      }
    }
  }
}
