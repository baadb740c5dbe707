/** A linear task over its whole life: segments that run the steps in order, pauses at human gates
    and callbacks, decisions, callbacks, timeouts, and crashes after any write. */
module LinearTask {
  import opened Pipelines
  import opened PipelineSafety

  const AWAIT_CALLBACK := "await_callback"

  /** The stored execution; hasToken: its callback token is not empty. */
  datatype Saved = Saved(gate: string, completed: seq<string>, hasToken: bool, awaitStep: string)

  /** A running segment: the execution it holds and the index of the next step. */
  datatype Segment = Segment(exec: Saved, index: nat)

  datatype How = Called | SkippedByCondition | Resumed | CalledBack

  /** Approval(gate): an approval processed while the stored task was stopped at gate.
      Handled(index, how): the run is past the step, or has invoked it. */
  datatype Entry = Approval(gate: string) | Handled(index: nat, how: How)

  /** justPaused: the stored execution was written by a pause and nothing has resumed it since.
      told: how many messages to the analyst, to complete the task, are on their way. */
  datatype Task = Task(
    started: bool,
    store: Option<Saved>,
    segment: Option<Segment>,
    log: seq<Entry>,
    justPaused: bool,
    told: nat)

  const NEW_TASK := Task(false, None, None, [], false, 0)

  datatype LinearPause = PauseSaved | PauseNotSaved | RequestNotJournaled
  datatype LinearCall =
    | NotConfigured
    | StartNotJournaled
    | PrepareNotSaved
    | CrashAfterPrepare
    | CrashAfterCall
    | Returned(ok: bool, journaled: bool)
  datatype Outcome = Outcome(cond: Condition, skipJournaled: bool, pause: LinearPause, call: LinearCall,
      tokenKnown: bool)

  // ---------- the steps of a linear pipeline ----------

  function AwaitName(step: Step, i: nat): string
  {
    if step.id != "" then step.id else "callback_" + Decimal(i)
  }

  /** The last step declared to await a callback, whose credentials are allocated in advance. */
  function LastAwait(steps: seq<Step>): (i: int)
    ensures -1 <= i < |steps|
    ensures i >= 0 ==> steps[i].kind == AWAIT_CALLBACK
    ensures forall j | i < j < |steps| :: steps[j].kind != AWAIT_CALLBACK
  {
    if steps == [] then -1
    else if steps[|steps| - 1].kind == AWAIT_CALLBACK then |steps| - 1
    else LastAwait(steps[..|steps| - 1])
  }

  predicate UsesCredentials(step: Step)
  {
    exists v <- step.withParams ::
      Contains(v, "callback_token") || Contains(v, "callback_url") || Contains(v, "callbackToken") ||
          Contains(v, "callbackUrl")
  }

  const RECALL := "system.recall"

  /** The internal tools that can fail. */
  predicate IsMemoryTool(tool: string)
  {
    "system.memory." <= tool
  }

  predicate IsInternal(tool: string)
  {
    tool == "system.save_preference" || tool == RECALL || IsMemoryTool(tool)
  }

  const GENERATE_CODE := "workspace.generate_code"

  /** A step that reaches the registry-tool branch once it runs. */
  predicate IsRegistryTool(step: Step)
  {
    !step.analyst && step.humanGate == "" && step.agent == "" && step.kind != AWAIT_CALLBACK && !IsInternal(step.tool)
  }

  /** A step before whose call the callback wait is stored. */
  predicate Prepares(steps: seq<Step>, i: nat)
    requires i < |steps|
  {
    IsRegistryTool(steps[i]) && i < LastAwait(steps) && UsesCredentials(steps[i])
  }

  // ---------- one iteration of the loop ----------

  /** failAuditExecution: the execution at hand is stored with neither gate nor token. */
  function JournalFailed(exec: Saved): Option<Saved>
  {
    Some(exec.(gate := "", hasToken := false))
  }

  function Stop(t: Task, store: Option<Saved>): Task
  {
    t.(store := store, segment := None)
  }

  /** The process dies: what the bus held is gone with it. */
  function Died(t: Task): Task
  {
    t.(segment := None, told := 0)
  }

  function Advance(t: Task, exec: Saved, index: nat, how: How): Task
  {
    t.(segment := Some(Segment(exec, index + 1)), log := t.log + [Handled(index, how)])
  }

  /** clearPreparedCallbackWait, then failTool on whatever is stored. */
  function ToolFailed(t: Task, exec: Saved): Task
  {
    var prepared := exec.gate == AWAIT_CALLBACK && exec.hasToken;
    var cleared := if prepared then exec.(gate := "", hasToken := false) else exec;
    var store := if prepared then Some(cleared) else t.store;
    Stop(t, if store.Some? then store else Some(cleared))
  }

  function Pause(t: Task, o: LinearPause, saved: Saved): (t': Task)
    ensures t'.segment.None? && t'.started == t.started
  {
    match o
    case PauseSaved => Stop(t, Some(saved)).(justPaused := true)
    case PauseNotSaved => Stop(t, None)
    case RequestNotJournaled => Stop(t, JournalFailed(saved))
  }

  function CallAgent(t: Task, exec: Saved, index: nat, call: LinearCall): (t': Task)
    ensures t'.segment.Some? ==> t'.segment.value.index == index + 1
    ensures t'.started == t.started
  {
    var called := LogCall(t, index);
    match call
    case StartNotJournaled => Stop(t, JournalFailed(exec))
    case CrashAfterPrepare => Died(t)
    case CrashAfterCall => Died(called)
    case Returned(ok, journaled) =>
      if !journaled then Stop(called, JournalFailed(exec))
      else if ok then Advance(t, exec, index, Called)
      else Stop(called, t.store)
    case _ => Stop(t, t.store)
  }

  /** A registry tool. */
  function CallTool(steps: seq<Step>, t: Task, exec: Saved, index: nat, call: LinearCall): (t': Task)
    requires index < |steps|
    ensures t'.segment.Some? ==> t'.segment.value.index == index + 1
    ensures t'.started == t.started
  {
    var called := LogCall(t, index);
    match call
    case CrashAfterPrepare => Died(t)
    case CrashAfterCall => Died(called)
    case Returned(ok, journaled) =>
      if !ok then
        if steps[index].tool == GENERATE_CODE then Stop(called, t.store) else ToolFailed(called, exec)
      else if journaled then Advance(t, exec, index, Called)
      else Stop(called, JournalFailed(exec))
    case _ => Stop(t, t.store)
  }

  /** An internal tool is always configured; recall's completion is not journaled. */
  function CallInternal(steps: seq<Step>, t: Task, exec: Saved, index: nat, call: LinearCall): (t': Task)
    requires index < |steps|
    ensures t'.segment.Some? ==> t'.segment.value.index == index + 1
    ensures t'.started == t.started
  {
    var called, tool := LogCall(t, index), steps[index].tool;
    match call
    case CrashAfterPrepare => Died(t)
    case CrashAfterCall => Died(called)
    case Returned(ok, journaled) =>
      if !ok && IsMemoryTool(tool) then Stop(called, t.store)
      else if !journaled && tool != RECALL then Stop(called, JournalFailed(exec))
      else Advance(t, exec, index, Called)
    case _ => Advance(t, exec, index, Called)
  }

  /** The callback wait stored before the call, as if the step were already done. */
  function PreparedWait(steps: seq<Step>, index: nat, tokenKnown: bool): Saved
    requires index < |steps| && Prepares(steps, index)
  {
    var await := LastAwait(steps);
    Saved(AWAIT_CALLBACK, StepIDs(steps[..index + 1]), tokenKnown, AwaitName(steps[await], await))
  }

  function StorePrepared(t: Task, prepared: Saved, index: nat): Task
  {
    t.(store := Some(prepared), segment := Some(Segment(prepared, index)))
  }

  function RunTool(steps: seq<Step>, t: Task, exec: Saved, index: nat, o: Outcome): (t': Task)
    requires index < |steps|
    ensures t'.segment.Some? ==> t'.segment.value.index == index + 1
    ensures t'.started == t.started
  {
    if o.call.StartNotJournaled? then Stop(t, JournalFailed(exec))
    else if IsInternal(steps[index].tool) then CallInternal(steps, t, exec, index, o.call)
    else if o.call.NotConfigured? then Stop(t, t.store)
    else if !Prepares(steps, index) then CallTool(steps, t, exec, index, o.call)
    else if o.call.PrepareNotSaved? then Stop(t, t.store)
    else
      var prepared := PreparedWait(steps, index, o.tokenKnown);
      CallTool(steps, StorePrepared(t, prepared, index), prepared, index, o.call)
  }

  /** No callback wait is stored before this call. */
  predicate RunsPlainly(steps: seq<Step>, index: nat, o: Outcome)
    requires index < |steps|
  {
    || o.call.StartNotJournaled? || !Prepares(steps, index)
    || o.call.NotConfigured? || o.call.PrepareNotSaved?
  }

  /** One iteration of executeLinear: it stops the segment or moves it to the next step. */
  function Iterate(steps: seq<Step>, t: Task, o: Outcome): (t': Task)
    requires t.segment.Some? && t.segment.value.index < |steps|
    ensures t'.segment.Some? ==> t'.segment.value.index == t.segment.value.index + 1
    ensures t'.started == t.started
  {
    var exec, index := t.segment.value.exec, t.segment.value.index;
    var step := steps[index];
    if !StepShouldRun(step, o.cond) then
      if step.humanGate != "" || o.skipJournaled then Advance(t, exec, index, SkippedByCondition)
      else Stop(t, JournalFailed(exec))
    else if step.analyst then Stop(t, t.store).(told := t.told + 1)
    else if step.humanGate != "" then
      if exec.gate == step.humanGate then Advance(t, exec, index, Resumed)
      else Pause(t, o.pause, Saved(step.humanGate, StepIDs(steps[..index]), false, ""))
    else if step.agent != "" then CallAgent(t, exec, index, o.call)
    else if step.kind == AWAIT_CALLBACK then
      Pause(t, o.pause, Saved(AWAIT_CALLBACK, StepIDs(steps[..index]), true, AwaitName(step, index)))
    else RunTool(steps, t, exec, index, o)
  }

  function LogCall(t: Task, index: nat): Task
  {
    t.(log := t.log + [Handled(index, Called)])
  }

  /** The ways a call can leave the task. */
  ghost predicate CallCases(t: Task, exec: Saved, index: nat, t': Task)
  {
    || t' == Stop(t, t.store)
    || t' == Stop(t, JournalFailed(exec))
    || t' == Advance(t, exec, index, Called)
    || t' == Stop(LogCall(t, index), t.store)
    || t' == Stop(LogCall(t, index), JournalFailed(exec))
    || t' == ToolFailed(LogCall(t, index), exec)
    || t' == Died(t)
    || t' == Died(LogCall(t, index))
  }

  lemma CallsAreCases(steps: seq<Step>, t: Task, exec: Saved, index: nat, call: LinearCall)
    requires index < |steps|
    ensures CallCases(t, exec, index, CallAgent(t, exec, index, call))
    ensures CallCases(t, exec, index, CallTool(steps, t, exec, index, call))
    ensures CallCases(t, exec, index, CallInternal(steps, t, exec, index, call))
  {
  }

  // ---------- the task's events ----------

  datatype Event =
    | Start
    | Iteration(outcome: Outcome)
    | Finish
    | Crash
    | Decide(approved: bool)
    | Callback(saved: bool, journaled: bool)
    | Timeout
    | Complete

  predicate Can(steps: seq<Step>, t: Task, e: Event)
  {
    match e
    case Start => !t.started
    case Iteration(_) => t.segment.Some? && t.segment.value.index < |steps|
    case Finish => t.segment.Some? && t.segment.value.index >= |steps|
    case Crash => true
    case Decide(_) => t.segment.None? && t.store.Some?
    case Callback(_, _) => t.segment.None? && t.store.Some? && t.store.value.gate == AWAIT_CALLBACK &&
        t.store.value.hasToken
    case Timeout => t.segment.None? && t.store.Some? && t.store.value.gate == AWAIT_CALLBACK
    case Complete => t.told > 0
  }

  /** persistCompletion: the task waits for nothing, and the steps up to the analyst's are done. */
  function Completed(steps: seq<Step>, store: Option<Saved>): Saved
  {
    var done := CompletionIDs(steps);
    Saved("", if store.Some? then (if done != [] then done else store.value.completed) else [], false, "")
  }

  function Resume(t: Task, st: Saved): Task
  {
    t.(store := Some(st), segment := Some(Segment(st, |st.completed|)), justPaused := false)
  }

  function Do(steps: seq<Step>, t: Task, e: Event): Task
    requires Can(steps, t, e)
  {
    match e
    case Start => Resume(t.(started := true), Saved("", [], false, ""))
    case Iteration(o) => Iterate(steps, t, o)
    case Finish => t.(segment := None, told := t.told + 1)
    case Crash => Died(t)
    case Complete => t.(store := Some(Completed(steps, t.store)), justPaused := false, told := t.told - 1)
    case Decide(approved) =>
      var st := t.store.value;
      if approved then Resume(t.(log := t.log + [Approval(st.gate)]), st)
      else t.(store := Some(st.(gate := "", hasToken := false)), justPaused := false)
    case Callback(saved, journaled) =>
      if !saved then t
      else
        var st := t.store.value;
        var st' := Saved("", st.completed + [st.awaitStep], false, st.awaitStep);
        if journaled then Resume(t.(log := t.log + [Handled(|st.completed|, CalledBack)]), st')
        else t.(store := Some(st'), justPaused := false)
    case Timeout => t.(store := Some(t.store.value.(gate := "", hasToken := false)), justPaused := false)
  }

  /** The task after a sequence of events, if each could happen. */
  function After(steps: seq<Step>, events: seq<Event>): Option<Task>
  {
    if events == [] then Some(NEW_TASK)
    else
      var last := |events| - 1;
      match After(steps, events[..last])
      case None => None
      case Some(t) => if Can(steps, t, events[last]) then Some(Do(steps, t, events[last])) else None
  }

  lemma AfterOneMore(steps: seq<Step>, events: seq<Event>, e: Event)
    requires After(steps, events).Some? && Can(steps, After(steps, events).value, e)
    ensures After(steps, events + [e]) == Some(Do(steps, After(steps, events).value, e))
  {
    assert (events + [e])[..|events|] == events;
  }

  // ---------- safety, crashes included ----------

  ghost predicate GateHandled(log: seq<Entry>, j: nat)
  {
    Handled(j, SkippedByCondition) in log || Handled(j, Resumed) in log
  }

  /** A human gate that no step storing the callback wait directly precedes: after a crash, that
      wait's callback counts the next step as done, whatever it is. */
  predicate Firm(steps: seq<Step>, j: nat)
    requires j < |steps|
  {
    steps[j].humanGate != "" && !(j > 0 && Prepares(steps, j - 1))
  }

  ghost predicate GatesHandled(steps: seq<Step>, log: seq<Entry>, k: nat)
  {
    forall j: nat | j < k && j < |steps| && Firm(steps, j) :: GateHandled(log, j)
  }

  /** An unconditional analyst step ends every run at it, unless the step before stores a callback
      wait: then a crash and the callback lead past it. */
  predicate EndsRuns(steps: seq<Step>, j: nat)
    requires j < |steps|
  {
    steps[j].analyst && steps[j].when == "" && !(j > 0 && Prepares(steps, j - 1))
  }

  ghost predicate Reachable(steps: seq<Step>, k: nat)
  {
    forall j: nat | j < k && j < |steps| :: !EndsRuns(steps, j)
  }

  ghost predicate SavedInv(steps: seq<Step>, log: seq<Entry>, st: Saved)
  {
    && |st.completed| <= |steps|
    && GatesHandled(steps, log, |st.completed|) && Reachable(steps, |st.completed|)
    && (st.hasToken ==> st.gate == AWAIT_CALLBACK && |st.completed| < |steps|
                        && !Firm(steps, |st.completed|) && !EndsRuns(steps, |st.completed|))
  }

  /** Each entry was written when every earlier firm gate had been handled. */
  ghost predicate LogInv(steps: seq<Step>, log: seq<Entry>)
  {
    forall p | 0 <= p < |log| && log[p].Handled? ::
      log[p].index < |steps| && GatesHandled(steps, log[..p], log[p].index)
  }

  ghost predicate SafetyInv(steps: seq<Step>, t: Task)
  {
    && LogInv(steps, t.log)
    && (t.store.Some? ==> SavedInv(steps, t.log, t.store.value))
    && (t.segment.Some? ==>
          var seg := t.segment.value;
          && SavedInv(steps, t.log, seg.exec)
          && seg.index <= |steps| && GatesHandled(steps, t.log, seg.index) && Reachable(steps, seg.index))
    && (t.told > 0 ==> GatesHandled(steps, t.log, FirstAnalyst(steps)) && Reachable(steps, FirstAnalyst(steps)))
  }

  /** The log only grows, so what it accounts for stays accounted for. */
  lemma GatesStayHandled(steps: seq<Step>, log: seq<Entry>, e: Entry, k: nat)
    requires GatesHandled(steps, log, k)
    ensures GatesHandled(steps, log + [e], k)
  {
    assert forall x <- log :: x in log + [e];
  }

  lemma LogGrows(steps: seq<Step>, log: seq<Entry>, e: Entry)
    requires LogInv(steps, log)
    requires e.Handled? ==> e.index < |steps| && GatesHandled(steps, log, e.index)
    ensures LogInv(steps, log + [e])
  {
    var more := log + [e];
    forall p | 0 <= p < |more| && more[p].Handled?
      ensures more[p].index < |steps| && GatesHandled(steps, more[..p], more[p].index)
    {
      assert more[..p] == if p < |log| then log[..p] else log;
    }
  }

  lemma LoggingKeepsSafety(steps: seq<Step>, t: Task, e: Entry)
    requires SafetyInv(steps, t)
    requires e.Handled? ==> e.index < |steps| && GatesHandled(steps, t.log, e.index)
    ensures SafetyInv(steps, t.(log := t.log + [e]))
  {
    LogGrows(steps, t.log, e);
    if t.told > 0 {
      GatesStayHandled(steps, t.log, e, FirstAnalyst(steps));
    }
    if t.store.Some? {
      GatesStayHandled(steps, t.log, e, |t.store.value.completed|);
    }
    if t.segment.Some? {
      GatesStayHandled(steps, t.log, e, |t.segment.value.exec.completed|);
      GatesStayHandled(steps, t.log, e, t.segment.value.index);
    }
  }

  /** Past a step that is no gate, or a gate that was skipped or resumed through. */
  lemma GatesHandledPast(steps: seq<Step>, log: seq<Entry>, index: nat, how: How)
    requires GatesHandled(steps, log, index) && index < |steps|
    requires Firm(steps, index) ==> how.SkippedByCondition? || how.Resumed?
    ensures GatesHandled(steps, log + [Handled(index, how)], index + 1)
  {
    GatesStayHandled(steps, log, Handled(index, how), index);
    assert (log + [Handled(index, how)])[|log|] == Handled(index, how);
  }

  lemma ReachablePast(steps: seq<Step>, index: nat)
    requires Reachable(steps, index) && index < |steps| && !EndsRuns(steps, index)
    ensures Reachable(steps, index + 1)
  {
  }

  lemma AdvanceKeepsSafety(steps: seq<Step>, t: Task, exec: Saved, index: nat, how: How)
    requires SafetyInv(steps, t) && t.segment == Some(Segment(exec, index)) && index < |steps|
    requires steps[index].humanGate != "" ==> how.SkippedByCondition? || how.Resumed?
    requires !EndsRuns(steps, index)
    ensures SafetyInv(steps, Advance(t, exec, index, how))
  {
    LoggingKeepsSafety(steps, t, Handled(index, how));
    GatesHandledPast(steps, t.log, index, how);
    ReachablePast(steps, index);
  }

  lemma StopKeepsSafety(steps: seq<Step>, t: Task, store: Option<Saved>)
    requires SafetyInv(steps, t) && (store.Some? ==> SavedInv(steps, t.log, store.value))
    ensures SafetyInv(steps, Stop(t, store))
  {
  }

  lemma CallKeepsSafety(steps: seq<Step>, t: Task, exec: Saved, index: nat, t': Task)
    requires SafetyInv(steps, t) && t.segment == Some(Segment(exec, index)) && index < |steps|
    requires steps[index].humanGate == "" && !steps[index].analyst
    requires CallCases(t, exec, index, t')
    ensures SafetyInv(steps, t')
  {
    var cleared := exec.(gate := "", hasToken := false);
    StopKeepsSafety(steps, t, t.store);
    StopKeepsSafety(steps, t, JournalFailed(exec));
    AdvanceKeepsSafety(steps, t, exec, index, Called);
    LoggingKeepsSafety(steps, t, Handled(index, Called));
    StopKeepsSafety(steps, LogCall(t, index), t.store);
    StopKeepsSafety(steps, LogCall(t, index), JournalFailed(exec));
    StopKeepsSafety(steps, LogCall(t, index), Some(exec));
  }

  /** The analyst is told at an analyst step or at the end, so past the steps up to the first one. */
  lemma TellingKeepsSafety(steps: seq<Step>, t: Task)
    requires SafetyInv(steps, t) && t.segment.Some?
    requires FirstAnalyst(steps) <= t.segment.value.index
    ensures SafetyInv(steps, Stop(t, t.store).(told := t.told + 1))
  {
  }

  /** Storing the callback wait before the call claims the step that is about to be called. */
  lemma PreparedKeepsSafety(steps: seq<Step>, t: Task, index: nat, tokenKnown: bool)
    requires SafetyInv(steps, t)
    requires t.segment.Some? && t.segment.value.index == index && index < |steps| && Prepares(steps, index)
    ensures SafetyInv(steps, StorePrepared(t, PreparedWait(steps, index, tokenKnown), index))
  {
    NotFirmIsHandled(steps, t.log, index);
    ReachablePast(steps, index);
    AfterPreparingIsNotFirm(steps, index);
  }

  lemma NotFirmIsHandled(steps: seq<Step>, log: seq<Entry>, index: nat)
    requires index < |steps| && GatesHandled(steps, log, index) && !Firm(steps, index)
    ensures GatesHandled(steps, log, index + 1)
  {
  }

  lemma AfterPreparingIsNotFirm(steps: seq<Step>, index: nat)
    requires index < |steps| && Prepares(steps, index)
    ensures index + 1 < |steps| && !Firm(steps, index + 1) && !EndsRuns(steps, index + 1)
  {
  }

  lemma ToolKeepsSafety(steps: seq<Step>, t: Task, exec: Saved, index: nat, o: Outcome)
    requires SafetyInv(steps, t)
    requires t.segment == Some(Segment(exec, index)) && index < |steps|
    requires steps[index].humanGate == "" && !steps[index].analyst
    ensures SafetyInv(steps, RunTool(steps, t, exec, index, o))
  {
    CallsAreCases(steps, t, exec, index, o.call);
    if RunsPlainly(steps, index, o) {
      CallKeepsSafety(steps, t, exec, index, RunTool(steps, t, exec, index, o));
    } else {
      var prepared := PreparedWait(steps, index, o.tokenKnown);
      PreparedKeepsSafety(steps, t, index, o.tokenKnown);
      CallsAreCases(steps, StorePrepared(t, prepared, index), prepared, index, o.call);
      CallKeepsSafety(steps, StorePrepared(t, prepared, index), prepared, index, RunTool(steps, t, exec, index, o));
    }
  }

  lemma PauseKeepsSafety(steps: seq<Step>, t: Task, index: nat, o: LinearPause, saved: Saved)
    requires SafetyInv(steps, t) && t.segment.Some? && t.segment.value.index == index && index < |steps|
    requires saved.completed == StepIDs(steps[..index])
    requires saved.hasToken ==> saved.gate == AWAIT_CALLBACK && steps[index].humanGate == "" && !EndsRuns(steps, index)
    ensures SafetyInv(steps, Pause(t, o, saved))
  {
    assert SavedInv(steps, t.log, saved);
  }

  lemma IterationKeepsSafety(steps: seq<Step>, t: Task, o: Outcome)
    requires SafetyInv(steps, t) && Can(steps, t, Iteration(o))
    ensures SafetyInv(steps, Iterate(steps, t, o))
  {
    var exec, index := t.segment.value.exec, t.segment.value.index;
    var step := steps[index];
    if !StepShouldRun(step, o.cond) {
      AdvanceKeepsSafety(steps, t, exec, index, SkippedByCondition);
    } else if step.analyst {
      TellingKeepsSafety(steps, t);
    } else if step.humanGate != "" {
      AdvanceKeepsSafety(steps, t, exec, index, Resumed);
      PauseKeepsSafety(steps, t, index, o.pause, Saved(step.humanGate, StepIDs(steps[..index]), false, ""));
    } else if step.agent != "" {
      CallsAreCases(steps, t, exec, index, o.call);
      CallKeepsSafety(steps, t, exec, index, CallAgent(t, exec, index, o.call));
    } else if step.kind == AWAIT_CALLBACK {
      PauseKeepsSafety(steps, t, index, o.pause, Saved(AWAIT_CALLBACK, StepIDs(steps[..index]), true,
          AwaitName(step, index)));
    } else {
      ToolKeepsSafety(steps, t, exec, index, o);
    }
  }

  lemma AnswerKeepsSafety(steps: seq<Step>, t: Task, saved: bool, journaled: bool)
    requires SafetyInv(steps, t) && Can(steps, t, Callback(saved, journaled))
    ensures SafetyInv(steps, Do(steps, t, Callback(saved, journaled)))
  {
    var c := |t.store.value.completed|;
    LoggingKeepsSafety(steps, t, Handled(c, CalledBack));
    GatesHandledPast(steps, t.log, c, CalledBack);
    ReachablePast(steps, c);
  }

  lemma CompletionKeepsSafety(steps: seq<Step>, t: Task)
    requires SafetyInv(steps, t) && Can(steps, t, Complete)
    ensures SafetyInv(steps, Do(steps, t, Complete))
  {
    assert SavedInv(steps, t.log, Completed(steps, t.store));
  }

  lemma EventKeepsSafety(steps: seq<Step>, t: Task, e: Event)
    requires SafetyInv(steps, t) && Can(steps, t, e)
    ensures SafetyInv(steps, Do(steps, t, e))
  {
    match e
    case Iteration(o) =>
      IterationKeepsSafety(steps, t, o);
    case Decide(approved) =>
      LoggingKeepsSafety(steps, t, Approval(t.store.value.gate));
    case Callback(saved, journaled) =>
      AnswerKeepsSafety(steps, t, saved, journaled);
    case Complete =>
      CompletionKeepsSafety(steps, t);
    case Finish => TellingKeepsSafety(steps, t);
    case _ =>
  }

  lemma {:induction false} RunKeepsSafety(steps: seq<Step>, events: seq<Event>)
    requires After(steps, events).Some?
    ensures SafetyInv(steps, After(steps, events).value)
  {
    if events != [] {
      var last := |events| - 1;
      RunKeepsSafety(steps, events[..last]);
      EventKeepsSafety(steps, After(steps, events[..last]).value, events[last]);
    }
  }

  // ---------- a gate is resumed through only when approved ----------

  /** A step that waits for a callback whenever it runs. */
  predicate Awaits(step: Step)
  {
    step.kind == AWAIT_CALLBACK && !step.analyst && step.humanGate == "" && step.agent == ""
  }

  /** A step that a run holding the stored callback wait goes past in one go, clearing no gate. */
  predicate Carries(step: Step)
  {
    if step.humanGate != "" then step.humanGate == AWAIT_CALLBACK && !step.analyst
    else step.when != "" || (!step.analyst && !Awaits(step))
  }

  /** A run can come here from a step that stores the callback wait without a pause or a cleared
      gate, and so still hold that wait: a gate of its name is then taken for approved. */
  ghost predicate Carried(steps: seq<Step>, j: nat)
    requires j <= |steps|
  {
    exists i: nat | i < j :: Prepares(steps, i) && forall k | i < k < j :: Carries(steps[k])
  }

  /** A gate that no run gets past with nothing cleared. */
  ghost predicate Binding(steps: seq<Step>, j: nat)
    requires j < |steps|
  {
    Firm(steps, j) && !(steps[j].humanGate == AWAIT_CALLBACK && !steps[j].analyst && Carried(steps, j))
  }

  /** A gate before step q was evaluated to false. */
  ghost predicate GateSkipped(steps: seq<Step>, log: seq<Entry>, q: nat)
  {
    exists k: nat :: k < q && k < |steps| && steps[k].humanGate != "" && Handled(k, SkippedByCondition) in log
  }

  /** Whether the gate's name is accounted for on arrival at step q. */
  ghost predicate NameCleared(steps: seq<Step>, log: seq<Entry>, gate: string, q: nat)
  {
    || Approval(gate) in log
    || (gate == AWAIT_CALLBACK && q <= |steps| && (Carried(steps, q) || GateSkipped(steps, log, q)))
  }

  ghost predicate ResumedApproved(steps: seq<Step>, log: seq<Entry>)
  {
    forall p | 0 <= p < |log| && log[p].Handled? && log[p].how.Resumed? ::
      && log[p].index < |steps| && !steps[log[p].index].analyst
      && NameCleared(steps, log[..p], steps[log[p].index].humanGate, log[p].index)
  }

  ghost predicate ApprovalInv(steps: seq<Step>, t: Task)
  {
    && ResumedApproved(steps, t.log)
    && (t.segment.Some? && t.segment.value.exec.gate != "" ==>
          NameCleared(steps, t.log, t.segment.value.exec.gate, t.segment.value.index))
  }

  lemma ResumedApprovedGrows(steps: seq<Step>, log: seq<Entry>, e: Entry)
    requires ResumedApproved(steps, log)
    requires e.Handled? && e.how.Resumed? ==>
        && e.index < |steps| && !steps[e.index].analyst
        && NameCleared(steps, log, steps[e.index].humanGate, e.index)
    ensures ResumedApproved(steps, log + [e])
  {
    var more := log + [e];
    forall p | 0 <= p < |more| && more[p].Handled? && more[p].how.Resumed?
      ensures more[p].index < |steps| && !steps[more[p].index].analyst
      ensures NameCleared(steps, more[..p], steps[more[p].index].humanGate, more[p].index)
    {
      assert more[..p] == if p < |log| then log[..p] else log;
    }
  }

  lemma NameStaysCleared(steps: seq<Step>, log: seq<Entry>, e: Entry, gate: string, q: nat)
    requires NameCleared(steps, log, gate, q)
    ensures NameCleared(steps, log + [e], gate, q)
  {
    assert forall x <- log :: x in log + [e];
    if !(Approval(gate) in log) && !Carried(steps, q) {
      var k: nat :| k < q && k < |steps| && steps[k].humanGate != "" && Handled(k, SkippedByCondition) in log;
      assert Handled(k, SkippedByCondition) in log + [e];
    }
  }

  /** Past one more step, holding the same gate: it carries the wait, or it is a gate skipped. */
  lemma NameClearedPast(steps: seq<Step>, log: seq<Entry>, gate: string, q: nat)
    requires NameCleared(steps, log, gate, q) && q < |steps|
    requires gate == AWAIT_CALLBACK ==> Passed(steps, log, q)
    ensures NameCleared(steps, log, gate, q + 1)
  {
    if !(Approval(gate) in log) {
      if Carries(steps[q]) && Carried(steps, q) {
        var i: nat :| i < q && Prepares(steps, i) && forall k | i < k < q :: Carries(steps[k]);
        assert forall k | i < k < q + 1 :: Carries(steps[k]);
      } else if Carries(steps[q]) {
        var k: nat :| k < q && k < |steps| && steps[k].humanGate != "" && Handled(k, SkippedByCondition) in log;
      }
    }
  }

  /** What an iteration can write: at most one entry, about the step at hand, and a resumption
      only of the gate the segment was resumed at. */
  ghost predicate LogsOneEntry(steps: seq<Step>, t: Task, t': Task)
    requires t.segment.Some? && t.segment.value.index < |steps|
  {
    var index := t.segment.value.index;
    || t'.log == t.log
    || (&& |t'.log| == |t.log| + 1 && t'.log == t.log + [t'.log[|t.log|]]
        && t'.log[|t.log|].Handled? && t'.log[|t.log|].index == index
        && (t'.log[|t.log|].how.Resumed? ==>
              && steps[index].humanGate != "" && !steps[index].analyst
              && steps[index].humanGate == t.segment.value.exec.gate))
  }

  /** What a run holds after a step: what it held, or the wait that the step stored. */
  ghost predicate KeepsExec(steps: seq<Step>, t: Task, t': Task)
    requires t.segment.Some? && t.segment.value.index < |steps|
  {
    t'.segment.Some? ==>
      var index, gate := t.segment.value.index, t'.segment.value.exec.gate;
      && t'.segment.value.index == index + 1
      && (|| (gate == AWAIT_CALLBACK && Prepares(steps, index))
          || (gate == t.segment.value.exec.gate && (gate == AWAIT_CALLBACK ==> Passed(steps, t'.log, index))))
  }

  /** Going past a step does not lose the wait, unless it is a gate that was skipped. */
  ghost predicate Passed(steps: seq<Step>, log: seq<Entry>, q: nat)
    requires q < |steps|
  {
    Carries(steps[q]) || (steps[q].humanGate != "" && Handled(q, SkippedByCondition) in log)
  }

  lemma CallLogs(steps: seq<Step>, t: Task, t0: Task, exec: Saved, t': Task)
    requires t.segment.Some? && t.segment.value.index < |steps| && t0.log == t.log
    requires var step := steps[t.segment.value.index]; step.humanGate == "" && !step.analyst && !Awaits(step)
    requires exec == t.segment.value.exec || (exec.gate == AWAIT_CALLBACK && Prepares(steps, t.segment.value.index))
    requires CallCases(t0, exec, t.segment.value.index, t')
    ensures LogsOneEntry(steps, t, t') && KeepsExec(steps, t, t')
  {
  }

  lemma ToolLogs(steps: seq<Step>, t: Task, o: Outcome)
    requires t.segment.Some? && t.segment.value.index < |steps|
    requires var step := steps[t.segment.value.index]; step.humanGate == "" && !step.analyst && !Awaits(step)
    ensures var t' := RunTool(steps, t, t.segment.value.exec, t.segment.value.index, o);
      LogsOneEntry(steps, t, t') && KeepsExec(steps, t, t')
  {
    var exec, index := t.segment.value.exec, t.segment.value.index;
    var t' := RunTool(steps, t, exec, index, o);
    CallsAreCases(steps, t, exec, index, o.call);
    if RunsPlainly(steps, index, o) {
      CallLogs(steps, t, t, exec, t');
    } else {
      var prepared := PreparedWait(steps, index, o.tokenKnown);
      CallsAreCases(steps, StorePrepared(t, prepared, index), prepared, index, o.call);
      CallLogs(steps, t, StorePrepared(t, prepared, index), prepared, t');
    }
  }

  lemma IterationLogs(steps: seq<Step>, t: Task, o: Outcome)
    requires Can(steps, t, Iteration(o))
    ensures LogsOneEntry(steps, t, Iterate(steps, t, o)) && KeepsExec(steps, t, Iterate(steps, t, o))
  {
    var exec, index := t.segment.value.exec, t.segment.value.index;
    var step := steps[index];
    if StepShouldRun(step, o.cond) && !step.analyst && step.humanGate == "" {
      if step.agent != "" {
        CallsAreCases(steps, t, exec, index, o.call);
        CallLogs(steps, t, t, exec, CallAgent(t, exec, index, o.call));
      } else if step.kind != AWAIT_CALLBACK {
        ToolLogs(steps, t, o);
      }
    }
  }

  lemma IterationKeepsApproval(steps: seq<Step>, t: Task, o: Outcome)
    requires ApprovalInv(steps, t) && Can(steps, t, Iteration(o))
    ensures ApprovalInv(steps, Iterate(steps, t, o))
  {
    IterationLogs(steps, t, o);
    var t', exec, index := Iterate(steps, t, o), t.segment.value.exec, t.segment.value.index;
    if t'.log != t.log {
      ResumedApprovedGrows(steps, t.log, t'.log[|t.log|]);
      if exec.gate != "" {
        NameStaysCleared(steps, t.log, t'.log[|t.log|], exec.gate, index);
      }
    }
    if t'.segment.Some? && t'.segment.value.exec.gate != "" {
      if t'.segment.value.exec.gate == AWAIT_CALLBACK && Prepares(steps, index) {
        CarriedFrom(steps, index);
      } else {
        NameClearedPast(steps, t'.log, exec.gate, index);
      }
    }
  }

  lemma CarriedFrom(steps: seq<Step>, i: nat)
    requires i < |steps| && Prepares(steps, i)
    ensures Carried(steps, i + 1)
  {
  }

  lemma EventKeepsApproval(steps: seq<Step>, t: Task, e: Event)
    requires ApprovalInv(steps, t) && Can(steps, t, e)
    ensures ApprovalInv(steps, Do(steps, t, e))
  {
    match e
    case Iteration(o) => IterationKeepsApproval(steps, t, o);
    case Decide(approved) =>
      ResumedApprovedGrows(steps, t.log, Approval(t.store.value.gate));
    case Callback(_, _) =>
      ResumedApprovedGrows(steps, t.log, Handled(|t.store.value.completed|, CalledBack));
    case _ =>
  }

  lemma {:induction false} RunKeepsApproval(steps: seq<Step>, events: seq<Event>)
    requires After(steps, events).Some?
    ensures ApprovalInv(steps, After(steps, events).value)
  {
    if events != [] {
      var last := |events| - 1;
      RunKeepsApproval(steps, events[..last]);
      EventKeepsApproval(steps, After(steps, events[..last]).value, events[last]);
    }
  }

  /** The log has, before the p-th entry, an approval of gate j or a skip of it. */
  ghost predicate GateCleared(steps: seq<Step>, log: seq<Entry>, p: nat, j: nat)
    requires p <= |log| && j < |steps|
  {
    Approval(steps[j].humanGate) in log[..p] || Handled(j, SkippedByCondition) in log[..p]
  }

  /** The task before the i-th event of a run. */
  ghost function Before(steps: seq<Step>, events: seq<Event>, i: nat): Task
    requires i <= |events|
  {
    match After(steps, events[..i]) case Some(t) => t case None => NEW_TASK
  }

  /** The i-th event was an iteration at step j, which has a condition, and the condition was
      evaluated, without error, to false. */
  ghost predicate EvaluatedFalse(steps: seq<Step>, events: seq<Event>, i: nat, j: nat)
    requires i < |events|
  {
    && events[i].Iteration? && events[i].outcome.cond == Fails && j < |steps| && steps[j].when != ""
    && Before(steps, events, i).segment.Some? && Before(steps, events, i).segment.value.index == j
  }

  /** The i-th event was an approval, given while the stored task was stopped at this gate. */
  ghost predicate ApprovedAt(steps: seq<Step>, events: seq<Event>, i: nat, gate: string)
    requires i < |events|
  {
    && events[i] == Decide(true)
    && Before(steps, events, i).store.Some? && Before(steps, events, i).store.value.gate == gate
  }

  /** Before the p-th entry was written, gate j was approved, or its condition evaluated to false. */
  ghost predicate Cleared(steps: seq<Step>, events: seq<Event>, p: nat, j: nat)
    requires j < |steps|
  {
    exists i: nat | i < |events| && |Before(steps, events, i).log| < p ::
      ApprovedAt(steps, events, i, steps[j].humanGate) || EvaluatedFalse(steps, events, i, j)
  }

  /** An iteration at a gate logs that the condition skipped it exactly when the gate has one and it was
      evaluated to false. */
  lemma SkipsExactly(steps: seq<Step>, t: Task, o: Outcome)
    requires Can(steps, t, Iteration(o)) && steps[t.segment.value.index].humanGate != ""
    ensures var j := t.segment.value.index;
      Iterate(steps, t, o).log == t.log + [Handled(j, SkippedByCondition)] <==> steps[j].when != "" && o.cond == Fails
  {
    IterationLogs(steps, t, o);
  }

  /** At a gate whose condition cannot be evaluated an iteration resumes through it if it holds that
      gate's name, and otherwise stops there: it never goes past. */
  lemma UnevaluableGateIsKept(steps: seq<Step>, t: Task, o: Outcome)
    requires Can(steps, t, Iteration(o)) && o.cond == Unevaluable
    requires var step := steps[t.segment.value.index]; step.humanGate != "" && !step.analyst
    ensures var j, t' := t.segment.value.index, Iterate(steps, t, o);
      if t.segment.value.exec.gate == steps[j].humanGate
      then t'.segment.Some? && t'.log == t.log + [Handled(j, Resumed)] && t'.store == t.store
      else
        && t'.segment.None? && t'.log == t.log
        && (o.pause.PauseSaved? ==> t'.store.Some? && t'.store.value.gate == steps[j].humanGate)
  {
  }

  /** Any other step whose condition cannot be evaluated is not acted on. */
  lemma UnevaluableActionIsSkipped(steps: seq<Step>, t: Task, o: Outcome)
    requires Can(steps, t, Iteration(o)) && o.cond == Unevaluable
    requires var step := steps[t.segment.value.index]; step.humanGate == "" && step.when != ""
    ensures var j, t' := t.segment.value.index, Iterate(steps, t, o);
      && t'.told == t.told
      && (if o.skipJournaled then t'.segment.Some? && t'.log == t.log + [Handled(j, SkippedByCondition)]
          else t'.segment.None? && t'.log == t.log)
  {
  }

  // ---------- what stops a run, and what is stored then ----------

  /** The step's condition lets it act. */
  predicate LetsAct(step: Step, c: Condition)
  {
    step.when == "" || c == Holds || (c == Unevaluable && step.humanGate != "")
  }

  const CREDENTIAL_NAMES := {"callback_token", "callback_url", "callbackToken", "callbackUrl"}

  /** The callback wait is stored before a call to a registry tool that one of the callback's credentials
      is handed to, if a later step awaits the callback. */
  lemma PreparesExactly(steps: seq<Step>, j: nat)
    requires j < |steps|
    ensures var step := steps[j];
      Prepares(steps, j)
      <==> && !step.analyst && step.humanGate == "" && step.agent == "" && step.kind != "await_callback"
           && step.tool != "system.save_preference" && step.tool != "system.recall" && !("system.memory." <= step.tool)
           && (exists k: nat :: j < k < |steps| && steps[k].kind == "await_callback")
           && (exists v, name :: v in step.withParams && name in CREDENTIAL_NAMES && Contains(v, name))
  {
    if LastAwait(steps) > j {
      assert steps[LastAwait(steps)].kind == "await_callback";
    }
  }

  /** The journal refuses an entry that this iteration must write, at step j with execution exec. */
  predicate JournalRefuses(steps: seq<Step>, exec: Saved, j: nat, o: Outcome)
    requires j < |steps|
  {
    var step, call := steps[j], o.call;
    if !LetsAct(step, o.cond) then step.humanGate == "" && !o.skipJournaled
    else if step.analyst then false
    else if step.humanGate != "" then exec.gate != step.humanGate && o.pause == RequestNotJournaled
    else if step.agent != "" then call == StartNotJournaled || (call.Returned? && !call.journaled)
    else if step.kind == "await_callback" then o.pause == RequestNotJournaled
    else
      || call == StartNotJournaled
      || (call.Returned? && !call.journaled
          && if "system.memory." <= step.tool || step.tool == "system.save_preference" then
               call.ok || !("system.memory." <= step.tool)
             else step.tool != "system.recall" && call.ok)
  }

  /** The steps that count as done when the journal refuses an entry at step j. */
  function DoneAtRefusal(steps: seq<Step>, exec: Saved, j: nat, o: Outcome): seq<string>
    requires j < |steps|
  {
    var step := steps[j];
    if !LetsAct(step, o.cond) then exec.completed
    else if step.humanGate != "" || (step.agent == "" && step.kind == "await_callback") then StepIDs(steps[..j])
    else if Prepares(steps, j) && o.call.Returned? then StepIDs(steps[..j + 1])
    else exec.completed
  }

  lemma ToolRefusalIsStored(steps: seq<Step>, t: Task, exec: Saved, j: nat, o: Outcome)
    requires j < |steps| && JournalRefuses(steps, exec, j, o) && LetsAct(steps[j], o.cond) && !steps[j].analyst
    requires steps[j].humanGate == "" && steps[j].agent == "" && steps[j].kind != "await_callback"
    ensures var t' := RunTool(steps, t, exec, j, o);
      && t'.segment.None? && t'.told == t.told && t'.justPaused == t.justPaused
      && t'.store.Some? && t'.store.value.gate == "" && !t'.store.value.hasToken
      && t'.store.value.completed == DoneAtRefusal(steps, exec, j, o)
  {
  }

  /** Whenever the journal refuses an entry the run ends, and what is stored waits for nothing: neither a
      decision at a gate nor a callback. */
  lemma RefusalIsStored(steps: seq<Step>, t: Task, o: Outcome)
    requires Can(steps, t, Iteration(o))
    requires JournalRefuses(steps, t.segment.value.exec, t.segment.value.index, o)
    ensures var t', exec := Do(steps, t, Iteration(o)), t.segment.value.exec;
      && t'.segment.None? && t'.told == t.told && t'.justPaused == t.justPaused
      && t'.store.Some? && t'.store.value.gate == "" && !t'.store.value.hasToken
      && t'.store.value.completed == DoneAtRefusal(steps, exec, t.segment.value.index, o)
  {
    var exec, j := t.segment.value.exec, t.segment.value.index;
    var step := steps[j];
    if LetsAct(step, o.cond) && !step.analyst && step.humanGate == "" && step.agent == "" {
      if step.kind != "await_callback" {
        ToolRefusalIsStored(steps, t, exec, j, o);
      }
    }
  }

  /** A call before which the wait is stored: whether it fails, crashes or succeeds, the wait is at the
      last step that awaits a callback, with this step counted as done; a failed call withdraws it if
      it has a token. */
  lemma PreparedExactly(steps: seq<Step>, t: Task, o: Outcome) returns (await: nat)
    requires Can(steps, t, Iteration(o)) && Prepares(steps, t.segment.value.index)
    requires LetsAct(steps[t.segment.value.index], o.cond)
    requires o.call.CrashAfterPrepare? || o.call.CrashAfterCall? || o.call.Returned?
    ensures t.segment.value.index < await < |steps| && steps[await].kind == "await_callback"
    ensures forall k | await < k < |steps| :: steps[k].kind != "await_callback"
    ensures var j, t' := t.segment.value.index, Do(steps, t, Iteration(o));
      var name := if steps[await].id != "" then steps[await].id else "callback_" + Decimal(await);
      var wait := Saved("await_callback", StepIDs(steps[..j + 1]), o.tokenKnown, name);
      match o.call
      case Returned(true, true) => t'.store == Some(wait) && t'.segment == Some(Segment(wait, j + 1))
      case Returned(true, false) => t'.segment.None?
      case Returned(false, _) => t'.segment.None? && t'.store == Some(
        if o.tokenKnown && steps[j].tool != "workspace.generate_code" then wait.(gate := "", hasToken := false)
        else wait)
      case _ => t'.store == Some(wait) && t'.segment.None?
  {
    await := LastAwait(steps);
  }

  /** The run goes on with the next step, which it has logged, and nothing is stored. */
  ghost predicate GoesOn(t: Task, t': Task, how: How)
    requires t.segment.Some?
  {
    var exec, j := t.segment.value.exec, t.segment.value.index;
    t' == t.(segment := Some(Segment(exec, j + 1)), log := t.log + [Handled(j, how)])
  }

  /** The run ends, with this in the store. */
  ghost predicate EndsWith(t: Task, t': Task, store: Option<Saved>)
  {
    t'.segment.None? && t'.store == store && t'.started == t.started
  }

  /** An iteration at a step that makes no call: a skipped step and a gate that the execution holds are
      passed, an analyst step is told, and any other gate, and a step that awaits the callback, is stored
      with the steps before it done. */
  lemma PassesOrPausesExactly(steps: seq<Step>, t: Task, o: Outcome)
    requires Can(steps, t, Iteration(o))
    requires !JournalRefuses(steps, t.segment.value.exec, t.segment.value.index, o)
    ensures var j, step := t.segment.value.index, steps[t.segment.value.index];
      var t', exec, awaits := Do(steps, t, Iteration(o)), t.segment.value.exec, step.kind == "await_callback";
      var name := if step.id != "" then step.id else "callback_" + Decimal(j);
      if !LetsAct(step, o.cond) then GoesOn(t, t', SkippedByCondition)
      else if step.analyst then EndsWith(t, t', t.store) && t'.told == t.told + 1 && t'.log == t.log
      else if step.humanGate != "" && exec.gate == step.humanGate then GoesOn(t, t', Resumed)
      else if step.humanGate != "" || (step.agent == "" && awaits) then
        && t'.log == t.log && t'.told == t.told
        && EndsWith(t, t', if o.pause == PauseNotSaved then None
             else if step.humanGate != "" then Some(Saved(step.humanGate, StepIDs(steps[..j]), false, ""))
             else Some(Saved("await_callback", StepIDs(steps[..j]), true, name)))
      else true
  {
  }

  /** An iteration at a step that makes a call, when no wait is stored before it and the journal takes what
      it must. A crash stops the run, before the call or after it; so does a failed call, but for those
      internal tools that cannot fail; an agent's or an internal tool's failure stores nothing, and a
      registry tool's withdraws a wait that the run still holds. */
  lemma CallsExactly(steps: seq<Step>, t: Task, o: Outcome)
    requires Can(steps, t, Iteration(o)) && !Prepares(steps, t.segment.value.index)
    requires !JournalRefuses(steps, t.segment.value.exec, t.segment.value.index, o)
    requires var step := steps[t.segment.value.index];
      && LetsAct(step, o.cond) && !step.analyst && step.humanGate == ""
      && (step.agent != "" || step.kind != "await_callback")
    ensures var j, step := t.segment.value.index, steps[t.segment.value.index];
      var t', exec, memory := Do(steps, t, Iteration(o)), t.segment.value.exec, "system.memory." <= step.tool;
      var agent, safe := step.agent != "", step.tool == "system.save_preference" || step.tool == "system.recall";
      match o.call
      case CrashAfterPrepare => EndsWith(t, t', t.store) && t'.log == t.log && t'.told == 0
      case CrashAfterCall => EndsWith(t, t', t.store) && t'.log == t.log + [Handled(j, Called)] && t'.told == 0
      case Returned(ok, _) =>
        if ok || (!agent && safe && !memory) then GoesOn(t, t', Called)
        else
          && t'.log == t.log + [Handled(j, Called)] && t'.told == t.told
          && EndsWith(t, t', if agent || memory || step.tool == "workspace.generate_code" then t.store
               else if exec.gate == "await_callback" && exec.hasToken then Some(exec.(gate := "", hasToken := false))
               else if t.store.None? then Some(exec) else t.store)
      case _ =>
        if !agent && (safe || memory) then GoesOn(t, t', Called)
        else EndsWith(t, t', t.store) && t'.log == t.log
  {
  }

  /** A decision: an approval resumes the stored execution after its completed steps; a rejection leaves
      it stored, waiting for nothing. */
  lemma DecisionExactly(steps: seq<Step>, t: Task, approved: bool)
    requires Can(steps, t, Decide(approved))
    ensures var t', st := Do(steps, t, Decide(approved)), t.store.value;
      && !t'.justPaused && t'.told == t.told
      && if approved then
           t'.store == Some(st) && t'.log == t.log + [Approval(st.gate)]
           && t'.segment == Some(Segment(st, |st.completed|))
         else
           t'.store == Some(Saved("", st.completed, false, st.awaitStep)) && t'.log == t.log && t'.segment.None?
  {
  }

  /** The analyst's completion: the task waits for nothing, and the steps before the first analyst step
      count as done, or, when there is none before it, those that already did. */
  lemma CompletionExactly(steps: seq<Step>, t: Task) returns (k: nat)
    requires Can(steps, t, Complete)
    ensures k <= |steps| && (k < |steps| ==> steps[k].analyst) && forall i | 0 <= i < k :: !steps[i].analyst
    ensures var t' := Do(steps, t, Complete);
      && t'.segment == t.segment && t'.log == t.log && t'.told == t.told - 1
      && t'.store.Some? && t'.store.value.gate == "" && !t'.store.value.hasToken
      && var done := t'.store.value.completed;
         if t.store.None? then done == []
         else if k == 0 then done == t.store.value.completed
         else |done| == k && forall i: nat | i < k :: done[i] == StepLabel(steps[i], i)
  {
    k := FirstAnalyst(steps);
    assert |CompletionIDs(steps)| == k;
  }

  /** The callback of a stored wait: unless it cannot be saved, the awaited step counts as done and the
      token is gone; the run goes on behind that step only if the callback was journaled. */
  lemma CallbackExactly(steps: seq<Step>, t: Task, saved: bool, journaled: bool)
    requires Can(steps, t, Callback(saved, journaled))
    ensures t.store.value.gate == "await_callback" && t.store.value.hasToken
    ensures var t', st := Do(steps, t, Callback(saved, journaled)), t.store.value;
      if !saved then t' == t
      else
        && t'.store == Some(Saved("", st.completed + [st.awaitStep], false, st.awaitStep)) && t'.told == t.told
        && if journaled then
             t'.log == t.log + [Handled(|st.completed|, CalledBack)]
             && t'.segment == Some(Segment(t'.store.value, |st.completed| + 1))
           else t'.log == t.log && t'.segment.None?
  {
  }

  /** A deadline that passes leaves the task waiting for nothing, with what it had completed; a crash
      takes the running segment and the messages to the analyst, and leaves what is stored. */
  lemma TimeoutAndCrashExactly(steps: seq<Step>, t: Task)
    ensures Can(steps, t, Timeout) ==> var t', st := Do(steps, t, Timeout), t.store.value;
      t'.store == Some(Saved("", st.completed, false, st.awaitStep)) && t'.log == t.log && t'.segment.None?
    ensures var t' := Do(steps, t, Crash);
      t'.store == t.store && t'.log == t.log && t'.segment.None? && !Can(steps, t', Complete)
  {
  }

  lemma EventLogs(steps: seq<Step>, t: Task, e: Event)
    requires Can(steps, t, e)
    ensures t.log <= Do(steps, t, e).log && |Do(steps, t, e).log| <= |t.log| + 1
  {
    if e.Iteration? {
      IterationLogs(steps, t, e.outcome);
    }
  }

  /** What the last event of a run logs, if it clears a gate. */
  lemma EventClears(steps: seq<Step>, t: Task, e: Event, j: nat)
    requires Can(steps, t, e) && j < |steps| && steps[j].humanGate != ""
    ensures Do(steps, t, e).log == t.log + [Handled(j, SkippedByCondition)]
       <==> e.Iteration? && e.outcome.cond == Fails && steps[j].when != "" && t.segment.value.index == j
    ensures Do(steps, t, e).log == t.log + [Approval(steps[j].humanGate)]
       <==> e == Decide(true) && t.store.value.gate == steps[j].humanGate
  {
    if e.Iteration? {
      IterationLogs(steps, t, e.outcome);
      if t.segment.value.index == j {
        SkipsExactly(steps, t, e.outcome);
      }
    }
    var skip, approval := Handled(j, SkippedByCondition), Approval(steps[j].humanGate);
    assert (t.log + [skip])[|t.log|] == skip && (t.log + [approval])[|t.log|] == approval;
    match e
    case Callback(_, _) =>
      var back := Handled(|t.store.value.completed|, CalledBack);
      assert (t.log + [back])[|t.log|] == back;
    case Decide(_) =>
      assert (t.log + [Approval(t.store.value.gate)])[|t.log|] == Approval(t.store.value.gate);
    case _ =>
  }

  lemma {:induction false} PrefixOfRun(steps: seq<Step>, events: seq<Event>, i: nat)
    requires i <= |events| && After(steps, events).Some?
    ensures After(steps, events[..i]) == Some(Before(steps, events, i))
    ensures Before(steps, events, i).log <= After(steps, events).value.log
    ensures i < |events| ==> Can(steps, Before(steps, events, i), events[i])
    decreases |events|
  {
    if i == |events| {
      assert events[..i] == events;
    } else {
      var last := |events| - 1;
      EventLogs(steps, After(steps, events[..last]).value, events[last]);
      PrefixOfRun(steps, events[..last], i);
      assert events[..last][..i] == events[..i];
    }
  }

  /** The event after which an entry stands in the log. */
  lemma {:induction false} EntryHasEvent(steps: seq<Step>, events: seq<Event>, q: nat) returns (i: nat)
    requires After(steps, events).Some? && q < |After(steps, events).value.log|
    ensures i < |events| && Before(steps, events, i).log == After(steps, events).value.log[..q]
    ensures Can(steps, Before(steps, events, i), events[i])
    ensures Do(steps, Before(steps, events, i), events[i]).log == After(steps, events).value.log[..q + 1]
    decreases |events|
  {
    var last := |events| - 1;
    var t := After(steps, events[..last]).value;
    EventLogs(steps, t, events[last]);
    if q < |t.log| {
      i := EntryHasEvent(steps, events[..last], q);
      assert events[..last][..i] == events[..i];
    } else {
      i := last;
    }
  }

  /** The event's entry, if it leaves one, stands where the log ended before. */
  lemma EventLeavesEntry(steps: seq<Step>, events: seq<Event>, i: nat)
    requires i < |events| && After(steps, events).Some?
    ensures var t := Before(steps, events, i);
      Can(steps, t, events[i]) && Do(steps, t, events[i]).log <= After(steps, events).value.log
  {
    PrefixOfRun(steps, events, i);
    PrefixOfRun(steps, events, i + 1);
    assert events[..i + 1][..i] == events[..i];
  }

  lemma ClearedHasEvent(steps: seq<Step>, events: seq<Event>, p: nat, j: nat)
    requires After(steps, events).Some? && p <= |After(steps, events).value.log|
    requires j < |steps| && steps[j].humanGate != "" && GateCleared(steps, After(steps, events).value.log, p, j)
    ensures Cleared(steps, events, p, j)
  {
    var log := After(steps, events).value.log;
    var q: nat :| q < p && (log[q] == Approval(steps[j].humanGate) || log[q] == Handled(j, SkippedByCondition));
    var i := ClearingEvent(steps, events, q, j, log);
  }

  lemma ClearingEvent(steps: seq<Step>, events: seq<Event>, q: nat, j: nat, log: seq<Entry>) returns (i: nat)
    requires After(steps, events).Some? && log == After(steps, events).value.log && q < |log|
    requires j < |steps| && steps[j].humanGate != ""
    requires log[q] == Approval(steps[j].humanGate) || log[q] == Handled(j, SkippedByCondition)
    ensures i < |events| && |Before(steps, events, i).log| == q
    ensures ApprovedAt(steps, events, i, steps[j].humanGate) || EvaluatedFalse(steps, events, i, j)
  {
    i := EntryHasEvent(steps, events, q);
    assert log[..q + 1] == log[..q] + [log[q]];
    ClearsAt(steps, events, i, Before(steps, events, i), j, log[q]);
  }

  lemma ClearsAt(steps: seq<Step>, events: seq<Event>, i: nat, t: Task, j: nat, entry: Entry)
    requires i < |events| && t == Before(steps, events, i) && Can(steps, t, events[i])
    requires Do(steps, t, events[i]).log == t.log + [entry] && j < |steps| && steps[j].humanGate != ""
    requires entry == Approval(steps[j].humanGate) || entry == Handled(j, SkippedByCondition)
    ensures ApprovedAt(steps, events, i, steps[j].humanGate) || EvaluatedFalse(steps, events, i, j)
  {
    EntryClears(steps, t, events[i], j, t.log, entry);
  }

  lemma EntryClears(steps: seq<Step>, t: Task, e: Event, j: nat, before: seq<Entry>, entry: Entry)
    requires Can(steps, t, e) && j < |steps| && steps[j].humanGate != ""
    requires t.log == before && Do(steps, t, e).log == before + [entry]
    requires entry == Approval(steps[j].humanGate) || entry == Handled(j, SkippedByCondition)
    ensures entry.Approval? ==> e == Decide(true) && t.store.Some? && t.store.value.gate == steps[j].humanGate
    ensures entry.Handled? ==> e.Iteration? && e.outcome.cond == Fails && steps[j].when != ""
    ensures entry.Handled? ==> t.segment.Some? && t.segment.value.index == j
  {
    EventClears(steps, t, e, j);
  }

  lemma ClearingIsLogged(steps: seq<Step>, events: seq<Event>, p: nat, j: nat)
    requires After(steps, events).Some? && p <= |After(steps, events).value.log|
    requires j < |steps| && steps[j].humanGate != "" && Cleared(steps, events, p, j)
    ensures GateCleared(steps, After(steps, events).value.log, p, j)
  {
    var log := After(steps, events).value.log;
    var i: nat :| i < |events| && |Before(steps, events, i).log| < p
      && (ApprovedAt(steps, events, i, steps[j].humanGate) || EvaluatedFalse(steps, events, i, j));
    EventLeavesEntry(steps, events, i);
    EventClears(steps, Before(steps, events, i), events[i], j);
    var q := |Before(steps, events, i).log|;
    assert log[q] == Approval(steps[j].humanGate) || log[q] == Handled(j, SkippedByCondition);
  }

  /** The log says of a gate what was decided and evaluated, and nothing else. */
  lemma ClearedExactly(steps: seq<Step>, events: seq<Event>, p: nat, j: nat)
    requires After(steps, events).Some? && p <= |After(steps, events).value.log|
    requires j < |steps| && steps[j].humanGate != ""
    ensures GateCleared(steps, After(steps, events).value.log, p, j) <==> Cleared(steps, events, p, j)
  {
    if GateCleared(steps, After(steps, events).value.log, p, j) {
      ClearedHasEvent(steps, events, p, j);
    }
    if Cleared(steps, events, p, j) {
      ClearingIsLogged(steps, events, p, j);
    }
  }

  lemma EveryEntryIsPastItsGates(steps: seq<Step>, events: seq<Event>, p: nat, j: nat)
    requires After(steps, events).Some?
    requires p < |After(steps, events).value.log| && After(steps, events).value.log[p].Handled?
    requires j < After(steps, events).value.log[p].index && j < |steps|
    ensures var log := After(steps, events).value.log;
      && (Firm(steps, j) && steps[j].humanGate != AWAIT_CALLBACK ==> GateCleared(steps, log, p, j))
      && (Binding(steps, j) ==>
            exists k: nat :: k <= j && steps[k].humanGate != "" && GateCleared(steps, log, p, k))
  {
    RunKeepsSafety(steps, events);
    RunKeepsApproval(steps, events);
    var log := After(steps, events).value.log;
    if Firm(steps, j) && !GateCleared(steps, log, p, j) {
      assert GateHandled(log[..p], j);
      var q :| 0 <= q < p && log[q] == Handled(j, Resumed);
      assert NameCleared(steps, log[..q], steps[j].humanGate, j);
      assert log[..q] <= log[..p];
      if GateSkipped(steps, log[..q], j) {
        var k: nat :| k < j && steps[k].humanGate != "" && Handled(k, SkippedByCondition) in log[..q];
        assert GateCleared(steps, log, p, k);
      }
    }
  }

  /** In every run, crashes included, each step comes after every earlier firm gate was approved, or its
      condition evaluated to false; a gate named like the callback wait may be passed when it is not
      binding, or when an earlier gate was cleared. */
  lemma EveryCallIsPastItsGates(steps: seq<Step>, events: seq<Event>, p: nat, j: nat)
    requires After(steps, events).Some?
    requires p < |After(steps, events).value.log| && After(steps, events).value.log[p].Handled?
    requires j < After(steps, events).value.log[p].index && j < |steps|
    ensures Firm(steps, j) && steps[j].humanGate != AWAIT_CALLBACK ==> Cleared(steps, events, p, j)
    ensures Binding(steps, j) ==>
      exists k: nat :: k <= j && steps[k].humanGate != "" && Cleared(steps, events, p, k)
  {
    EveryEntryIsPastItsGates(steps, events, p, j);
    forall k: nat | k < |steps| && steps[k].humanGate != ""
      ensures GateCleared(steps, After(steps, events).value.log, p, k) <==> Cleared(steps, events, p, k)
    {
      ClearedExactly(steps, events, p, k);
    }
  }

  // ---------- and exactly when ----------

  const SMOOTH := Outcome(Holds, true, PauseSaved, Returned(true, true), true)

  ghost predicate Reaches(steps: seq<Step>, events: seq<Event>, k: nat)
  {
    && After(steps, events).Some?
    && var t := After(steps, events).value;
       && t.segment.Some? && t.segment.value.index == k
       && forall e <- t.log | e.Handled? :: e.index < k
  }

  /** The outcome that takes a run past a step: its condition fails, if it has one. */
  function PassOutcome(step: Step): Outcome
  {
    if step.when != "" then SMOOTH.(cond := Fails) else SMOOTH
  }

  function PassHow(step: Step): How
  {
    if step.when != "" then SkippedByCondition else if step.humanGate != "" then Resumed else Called
  }

  /** A step that a run passes in one go, resumed at this gate. */
  predicate InOneGo(step: Step, gate: string)
  {
    step.when != "" || (!step.analyst && (step.humanGate == "" || step.humanGate == gate) && !Awaits(step))
  }

  lemma IteratePast(steps: seq<Step>, t: Task)
    requires t.segment.Some? && t.segment.value.index < |steps|
    requires InOneGo(steps[t.segment.value.index], t.segment.value.exec.gate)
    ensures var q := t.segment.value.index;
      var t' := Iterate(steps, t, PassOutcome(steps[q]));
      && t'.segment.Some? && t'.segment.value.index == q + 1
      && t'.log == t.log + [Handled(q, PassHow(steps[q]))]
      && (steps[q].when != "" || !Prepares(steps, q) ==>
            t'.store == t.store && t'.segment.value.exec == t.segment.value.exec)
      && (steps[q].when == "" && Prepares(steps, q) ==>
            t'.store == Some(PreparedWait(steps, q, true)) && t'.segment.value.exec == PreparedWait(steps, q, true))
  {
  }

  /** A crash right after the call, then the callback: the next step counts as awaited. */
  lemma CrashThenCallback(steps: seq<Step>, events: seq<Event>, i: nat) returns (more: seq<Event>)
    requires i < |steps| && Reaches(steps, events, i) && Prepares(steps, i)
    ensures Reaches(steps, more, i + 2)
    ensures After(steps, more).value.log
         == After(steps, events).value.log + [Handled(i, Called)] + [Handled(i + 1, CalledBack)]
  {
    var t := After(steps, events).value;
    var crash := Iteration(SMOOTH.(call := CrashAfterCall));
    IterateCrashes(steps, t);
    AfterOneMore(steps, events, crash);
    AfterOneMore(steps, events + [crash], Callback(true, true));
    more := events + [crash] + [Callback(true, true)];
  }

  lemma IterateCrashes(steps: seq<Step>, t: Task)
    requires t.segment.Some? && t.segment.value.index < |steps| && Prepares(steps, t.segment.value.index)
    ensures var i := t.segment.value.index;
      Iterate(steps, t, SMOOTH.(call := CrashAfterCall))
        == Died(LogCall(StorePrepared(t, PreparedWait(steps, i, true), i), i))
  {
  }

  /** Past any step that does not end every run at it; a step that is no gate leaves one entry. */
  lemma StepPast(steps: seq<Step>, events: seq<Event>, j: nat) returns (more: seq<Event>)
    requires j < |steps| && Reaches(steps, events, j)
    requires steps[j].analyst ==> steps[j].when != ""
    ensures Reaches(steps, more, j + 1)
    ensures steps[j].humanGate == "" ==>
      exists how :: After(steps, more).value.log == After(steps, events).value.log + [Handled(j, how)]
  {
    var step, t := steps[j], After(steps, events).value;
    var go := Iteration(PassOutcome(step));
    if InOneGo(step, t.segment.value.exec.gate) {
      IteratePast(steps, t);
      AfterOneMore(steps, events, go);
      more := events + [go];
    } else if step.humanGate != "" {
      more := ApproveAndPass(steps, events, j);
    } else {
      AfterOneMore(steps, events, go);
      AfterOneMore(steps, events + [go], Callback(true, true));
      more := events + [go] + [Callback(true, true)];
      assert After(steps, more).value.log == t.log + [Handled(j, CalledBack)];
    }
  }

  /** A gate is paused at, approved, and resumed through. */
  lemma ApproveAndPass(steps: seq<Step>, events: seq<Event>, j: nat) returns (more: seq<Event>)
    requires j < |steps| && Reaches(steps, events, j)
    requires !steps[j].analyst && steps[j].when == "" && steps[j].humanGate != ""
    requires After(steps, events).value.segment.value.exec.gate != steps[j].humanGate
    ensures Reaches(steps, more, j + 1)
  {
    var go := Iteration(PassOutcome(steps[j]));
    AfterOneMore(steps, events, go);
    more := events + [go];
    AfterOneMore(steps, more, Decide(true));
    more := more + [Decide(true)];
    IteratePast(steps, After(steps, more).value);
    AfterOneMore(steps, more, go);
    more := more + [go];
  }

  lemma {:induction false} ReachStep(steps: seq<Step>, k: nat) returns (events: seq<Event>)
    requires k <= |steps| && Reachable(steps, k)
    ensures Reaches(steps, events, k)
  {
    if k == 0 {
      events := [Start];
      AfterOneMore(steps, [], Start);
    } else if steps[k - 1].analyst && steps[k - 1].when == "" {
      assert !EndsRuns(steps, k - 1);
      events := ReachStep(steps, k - 2);
      events := CrashThenCallback(steps, events, k - 2);
    } else {
      events := ReachStep(steps, k - 1);
      events := StepPast(steps, events, k - 1);
    }
  }

  /** No reachable step that stores the callback wait is directly followed by a human gate. */
  ghost predicate NoGateAfterPreparing(steps: seq<Step>)
  {
    forall i: nat | i < |steps| && Prepares(steps, i) && Reachable(steps, i) :: steps[i + 1].humanGate == ""
  }

  ghost predicate AllGatesHandled(steps: seq<Step>, t: Task)
    requires t.segment.Some?
  {
    forall j: nat | j < t.segment.value.index && j < |steps| && steps[j].humanGate != "" :: GateHandled(t.log, j)
  }

  /** No run ever moves past an unhandled gate, if and only if no reachable step that stores the
      callback wait is directly followed by a gate. */
  lemma GatesAreNeverSkippedExactly(steps: seq<Step>)
    ensures NoGateAfterPreparing(steps)
       <==> forall events, t | After(steps, events) == Some(t) && t.segment.Some? :: AllGatesHandled(steps, t)
  {
    if NoGateAfterPreparing(steps) {
      forall events, t | After(steps, events) == Some(t) && t.segment.Some?
        ensures AllGatesHandled(steps, t)
      {
        RunKeepsSafety(steps, events);
        forall j: nat | j < t.segment.value.index && j < |steps| && steps[j].humanGate != ""
          ensures GateHandled(t.log, j)
        {
          assert j > 0 ==> Reachable(steps, j - 1);
          assert Firm(steps, j);
        }
      }
    } else {
      var i: nat :| i < |steps| && Prepares(steps, i) && Reachable(steps, i) && steps[i + 1].humanGate != "";
      var events := ReachStep(steps, i);
      var more := CrashThenCallback(steps, events, i);
      var t := After(steps, more).value;
      assert !GateHandled(t.log, i + 1);
      assert !AllGatesHandled(steps, t);
    }
  }

  /** The run can invoke something for this step. */
  predicate CanBeCalled(step: Step)
  {
    !step.analyst && step.humanGate == "" && (step.agent != "" || step.kind != AWAIT_CALLBACK)
  }

  /** Some gate before step d is binding. */
  ghost predicate Gated(steps: seq<Step>, d: nat)
    requires d < |steps|
  {
    exists j: nat | j < d :: Binding(steps, j)
  }

  /** Whenever step d was called in this run, some earlier gate had been approved or evaluated to false. */
  ghost predicate ClearedWhenCalled(steps: seq<Step>, events: seq<Event>, d: nat)
    requires d < |steps| && After(steps, events).Some?
  {
    var log := After(steps, events).value.log;
    forall p: nat | p < |log| && log[p] == Handled(d, Called) ::
      exists j: nat :: j < d && steps[j].humanGate != "" && Cleared(steps, events, p, j)
  }

  /** A log in which nobody approved anything and no gate was evaluated to false. */
  ghost predicate NothingCleared(steps: seq<Step>, log: seq<Entry>)
  {
    forall e <- log :: e.Handled? && e.index < |steps| &&
        (steps[e.index].humanGate != "" ==> !e.how.SkippedByCondition?)
  }

  /** A run with nothing cleared that has reached step k, holding the wait wherever it can. */
  ghost predicate ReachesUncleared(steps: seq<Step>, events: seq<Event>, k: nat)
    requires k <= |steps|
  {
    && Reaches(steps, events, k) && NothingCleared(steps, After(steps, events).value.log)
    && (Carried(steps, k) ==> After(steps, events).value.segment.value.exec.gate == AWAIT_CALLBACK)
  }

  /** Past a step that runs: one that stores the wait, or a gate named like the wait. */
  lemma RunPast(steps: seq<Step>, events: seq<Event>, q: nat) returns (more: seq<Event>)
    requires q < |steps| && ReachesUncleared(steps, events, q) && !steps[q].analyst
    requires Prepares(steps, q) || (steps[q].humanGate == AWAIT_CALLBACK && Carried(steps, q))
    ensures ReachesUncleared(steps, more, q + 1)
  {
    var t := After(steps, events).value;
    AfterOneMore(steps, events, Iteration(SMOOTH));
    more := events + [Iteration(SMOOTH)];
  }

  /** Past another step that no gate is, and that does not end the run. */
  lemma PassPlain(steps: seq<Step>, events: seq<Event>, q: nat) returns (more: seq<Event>)
    requires q < |steps| && ReachesUncleared(steps, events, q) && !Prepares(steps, q)
    requires steps[q].humanGate == "" && (steps[q].analyst ==> steps[q].when != "")
    ensures ReachesUncleared(steps, more, q + 1)
  {
    if Carried(steps, q + 1) {
      CarriedBefore(steps, q);
      IteratePast(steps, After(steps, events).value);
      AfterOneMore(steps, events, Iteration(PassOutcome(steps[q])));
      more := events + [Iteration(PassOutcome(steps[q]))];
      PlainClearsNothing(steps, After(steps, events).value.log, q, PassHow(steps[q]));
    } else {
      more := StepPast(steps, events, q);
      var how :| After(steps, more).value.log == After(steps, events).value.log + [Handled(q, how)];
      PlainClearsNothing(steps, After(steps, events).value.log, q, how);
    }
  }

  lemma PlainClearsNothing(steps: seq<Step>, log: seq<Entry>, q: nat, how: How)
    requires NothingCleared(steps, log) && q < |steps| && steps[q].humanGate == ""
    ensures NothingCleared(steps, log + [Handled(q, how)])
  {
  }

  lemma CarriedBefore(steps: seq<Step>, q: nat)
    requires q < |steps| && Carried(steps, q + 1) && !Prepares(steps, q)
    ensures Carried(steps, q) && Carries(steps[q])
  {
    var i: nat :| i < q + 1 && Prepares(steps, i) && forall k | i < k < q + 1 :: Carries(steps[k]);
    assert forall k | i < k < q :: Carries(steps[k]);
  }

  lemma {:induction false} ReachUncleared(steps: seq<Step>, d: nat, k: nat) returns (events: seq<Event>)
    requires k <= d < |steps| && Reachable(steps, d) && !Gated(steps, d)
    ensures ReachesUncleared(steps, events, k)
  {
    if k == 0 {
      events := [Start];
      AfterOneMore(steps, [], Start);
    } else {
      var q := k - 1;
      assert !Binding(steps, q) && !EndsRuns(steps, q);
      if Prepares(steps, q) || (steps[q].humanGate == AWAIT_CALLBACK && !steps[q].analyst && Carried(steps, q)) {
        events := ReachUncleared(steps, d, q);
        events := RunPast(steps, events, q);
      } else if steps[q].humanGate != "" || (steps[q].analyst && steps[q].when == "") {
        assert Prepares(steps, q - 1);
        events := ReachUncleared(steps, d, q - 1);
        events := CrashThenCallback(steps, events, q - 1);
        JumpedIsNotCarried(steps, q);
      } else {
        events := ReachUncleared(steps, d, q);
        events := PassPlain(steps, events, q);
      }
    }
  }

  lemma JumpedIsNotCarried(steps: seq<Step>, q: nat)
    requires q < |steps| && !Prepares(steps, q)
    requires steps[q].humanGate != "" || (steps[q].analyst && steps[q].when == "")
    requires !(steps[q].humanGate == AWAIT_CALLBACK && !steps[q].analyst && Carried(steps, q))
    ensures !Carried(steps, q + 1)
  {
    if Carried(steps, q + 1) {
      CarriedBefore(steps, q);
    }
  }

  /** A step that can be called is called only past a cleared gate, in every run, if and only if
      some gate before it is binding: it does not directly follow a step that stores the callback
      wait, and no run that holds this wait comes to a gate of the wait's name. */
  lemma CallsAreClearedExactly(steps: seq<Step>, d: nat)
    requires d < |steps| && Reachable(steps, d) && CanBeCalled(steps[d])
    ensures Gated(steps, d)
       <==> forall events | After(steps, events).Some? :: ClearedWhenCalled(steps, events, d)
  {
    if Gated(steps, d) {
      var j: nat :| j < d && Binding(steps, j);
      forall events | After(steps, events).Some?
        ensures ClearedWhenCalled(steps, events, d)
      {
        var log := After(steps, events).value.log;
        forall p: nat | p < |log| && log[p] == Handled(d, Called)
          ensures exists k: nat :: k < d && steps[k].humanGate != "" && Cleared(steps, events, p, k)
        {
          EveryCallIsPastItsGates(steps, events, p, j);
        }
      }
    } else {
      var events := CallUncleared(steps, d);
    }
  }

  lemma CallUncleared(steps: seq<Step>, d: nat) returns (events: seq<Event>)
    requires d < |steps| && Reachable(steps, d) && CanBeCalled(steps[d]) && !Gated(steps, d)
    ensures After(steps, events).Some? && !ClearedWhenCalled(steps, events, d)
  {
    var before := ReachUncleared(steps, d, d);
    var log := After(steps, before).value.log;
    AfterOneMore(steps, before, Iteration(SMOOTH));
    events := before + [Iteration(SMOOTH)];
    var log' := After(steps, events).value.log;
    assert log' == log + [Handled(d, Called)];
    assert log'[..|log|] == log;
    assert log'[|log|] == Handled(d, Called);
    forall j: nat | j < d && steps[j].humanGate != ""
      ensures !Cleared(steps, events, |log|, j)
    {
      ClearedExactly(steps, events, |log|, j);
    }
  }

  /** The check's acceptance of a linear pipeline means, for a guarded step that a run can reach and
      call, that it has gates before it, and that it is called only past a cleared one exactly when
      one of them is binding. */
  lemma AcceptedLinearIsSafeExactly(pipe: Pipeline, tools: map<string, ToolMode>, d: nat)
    requires !pipe.dag && Safe(pipe, tools)
    requires d < |pipe.steps| && Guarded(pipe.steps[d], tools) && CanBeCalled(pipe.steps[d]) && Reachable(pipe.steps, d)
    ensures exists j: nat :: j < d && pipe.steps[j].humanGate != ""
    ensures (forall events | After(pipe.steps, events).Some? ::
               ClearedWhenCalled(pipe.steps, events, d))
       <==> Gated(pipe.steps, d)
  {
    assert Approved(pipe, d);
    CallsAreClearedExactly(pipe.steps, d);
  }

  // ---------- two runs that call a step past no cleared gate ----------

  const SUBMIT := BLANK.(tool := "submit", withParams := ["{{.callback_token}}"])
  const PAY := BLANK.(tool := "pay")
  const ANSWER := BLANK.(id := "answer", kind := AWAIT_CALLBACK)

  lemma SubmitPrepares(steps: seq<Step>, await: nat)
    requires 0 < await < |steps| && steps[0] == SUBMIT && steps[await] == ANSWER
    ensures Prepares(steps, 0)
  {
    assert "callback_token" <= "{{.callback_token}}"[3..];
    assert SUBMIT.withParams[0] in SUBMIT.withParams;
  }

  /** The check accepts a payment behind a gate that directly follows the submitting step; when the
      process dies right after the submission, the callback stands for the gate and the run pays. */
  lemma AcceptedPipelinePaysUncleared() returns (pipe: Pipeline, events: seq<Event>)
    ensures !pipe.dag && Safe(pipe, map["pay" := Dangerous])
    ensures |pipe.steps| == 4 && pipe.steps[2] == PAY && After(pipe.steps, events).Some?
    ensures !ClearedWhenCalled(pipe.steps, events, 2)
  {
    var steps := [SUBMIT, BLANK.(humanGate := "manager"), PAY, ANSWER];
    pipe := Pipeline(false, steps);
    SubmitPrepares(steps, 3);
    assert steps[1].humanGate != "";
    assert Approved(pipe, 2);
    events := CallUncleared(steps, 2);
  }

  /** A gate named like the callback wait is taken for approved by a run that holds this wait. */
  lemma GateNamedAwaitIsNotAsked() returns (pipe: Pipeline, events: seq<Event>)
    ensures !pipe.dag && Safe(pipe, map["pay" := Dangerous])
    ensures |pipe.steps| == 5 && Firm(pipe.steps, 2) && pipe.steps[3] == PAY && After(pipe.steps, events).Some?
    ensures !ClearedWhenCalled(pipe.steps, events, 3)
  {
    var steps := [SUBMIT, BLANK.(tool := "note"), BLANK.(humanGate := AWAIT_CALLBACK), PAY, ANSWER];
    pipe := Pipeline(false, steps);
    SubmitPrepares(steps, 4);
    assert !UsesCredentials(steps[1]);
    assert steps[2].humanGate != "";
    assert Approved(pipe, 3);
    assert forall k | 0 < k < 2 :: Carries(steps[k]);
    assert Carried(steps, 2);
    events := CallUncleared(steps, 3);
  }

  // ---------- the executor ----------

  /** The segment run to its stop, answered by one outcome per step. */
  ghost function RunSegment(steps: seq<Step>, t: Task, outs: seq<Outcome>): Task
    requires |outs| == |steps|
    decreases if t.segment.Some? && t.segment.value.index <= |steps| then |steps| - t.segment.value.index + 1 else 0
  {
    if t.segment.None? then t
    else if t.segment.value.index >= |steps| then t.(segment := None, told := t.told + 1)
    else RunSegment(steps, Iterate(steps, t, outs[t.segment.value.index]), outs)
  }

  /** Running a segment is a run of the task: one iteration per step, then the end. */
  lemma {:induction false} SegmentIsRun(steps: seq<Step>, events: seq<Event>, outs: seq<Outcome>)
      returns (more: seq<Event>)
    requires |outs| == |steps| && After(steps, events).Some?
    ensures After(steps, more) == Some(RunSegment(steps, After(steps, events).value, outs))
    decreases var t := After(steps, events).value;
      if t.segment.Some? && t.segment.value.index <= |steps| then |steps| - t.segment.value.index + 1 else 0
  {
    var t := After(steps, events).value;
    if t.segment.None? {
      more := events;
    } else if t.segment.value.index >= |steps| {
      AfterOneMore(steps, events, Finish);
      more := events + [Finish];
    } else {
      var o := outs[t.segment.value.index];
      AfterOneMore(steps, events, Iteration(o));
      more := SegmentIsRun(steps, events + [Iteration(o)], outs);
    }
  }

  class LinearExecutor {
    var store: Option<Saved>
    var log: seq<Entry>
    var justPaused: bool
    var told: nat

    constructor ()
      ensures store == None && log == [] && !justPaused && told == 0
    {
      store, log, justPaused, told := None, [], false, 0;
    }

    ghost function TaskWith(segment: Option<Segment>): Task
      reads this
    {
      Task(true, store, segment, log, justPaused, told)
    }

    /** The index of the last await step, whose credentials are allocated before the run. */
    static method FindAwait(steps: seq<Step>) returns (callbackIndex: int)
      ensures callbackIndex == LastAwait(steps)
    {
      callbackIndex := -1;
      for i := 0 to |steps|
        invariant callbackIndex == LastAwait(steps[..i])
      {
        assert steps[..i + 1][..i] == steps[..i];
        if steps[i].kind == AWAIT_CALLBACK {
          callbackIndex := i;
        }
      }
      assert steps[..|steps|] == steps;
    }

    method FailJournal(exec: Saved)
      modifies this`store
      ensures store == JournalFailed(exec)
    {
      store := Some(exec.(gate := "", hasToken := false));
    }

    /** Saves the execution a pause leaves behind. */
    method PauseAt(saved: Saved, o: LinearPause)
      modifies this`store, this`justPaused
      ensures TaskWith(None) == Pause(old(TaskWith(None)), o, saved)
    {
      match o
      case PauseSaved =>
        store, justPaused := Some(saved), true;
      case PauseNotSaved =>
        store := None;
      case RequestNotJournaled =>
        FailJournal(saved);
    }

    /** clearPreparedCallbackWait and failTool. */
    method FailTool(held: Saved)
      modifies this`store
      ensures TaskWith(None) == ToolFailed(old(TaskWith(None)), held)
    {
      var exec := held;
      if exec.gate == AWAIT_CALLBACK && exec.hasToken {
        exec := exec.(gate := "", hasToken := false);
        store := Some(exec);
      }
      if store.None? {
        store := Some(exec);
      }
    }

    /** The agent branch of an iteration; further: the run goes on with the next step. */
    method RunAgentStep(exec: Saved, index: nat, call: LinearCall) returns (further: bool)
      modifies this`store, this`log, this`told
      ensures TaskWith(if further then Some(Segment(exec, index + 1)) else None)
           == CallAgent(old(TaskWith(Some(Segment(exec, index)))), exec, index, call)
    {
      if call.StartNotJournaled? {
        FailJournal(exec);
        return false;
      }
      if call.CrashAfterPrepare? {
        told := 0;
        return false;
      }
      if !call.CrashAfterCall? && !call.Returned? {
        return false;
      }
      log := log + [Handled(index, Called)];
      if call.CrashAfterCall? {
        told := 0;
        return false;
      }
      if !call.journaled {
        FailJournal(exec);
        return false;
      }
      return call.ok;
    }

    /** The internal tools. */
    method RunInternalStep(steps: seq<Step>, exec: Saved, index: nat, call: LinearCall) returns (further: bool)
      requires index < |steps|
      modifies this`store, this`log, this`told
      ensures TaskWith(if further then Some(Segment(exec, index + 1)) else None)
           == CallInternal(steps, old(TaskWith(Some(Segment(exec, index)))), exec, index, call)
    {
      if call.CrashAfterPrepare? {
        told := 0;
        return false;
      }
      log := log + [Handled(index, Called)];
      if call.CrashAfterCall? {
        told := 0;
        return false;
      }
      if call.Returned? && !call.ok && IsMemoryTool(steps[index].tool) {
        return false;
      }
      if call.Returned? && !call.journaled && steps[index].tool != RECALL {
        FailJournal(exec);
        return false;
      }
      return true;
    }

    /** The tool branch: a step that hands out the callback credentials stores the wait first. */
    method RunToolStep(steps: seq<Step>, callbackIndex: int, held: Saved, index: nat, o: Outcome)
      returns (further: bool, exec: Saved)
      requires index < |steps| && callbackIndex == LastAwait(steps)
      requires steps[index].humanGate == "" && !steps[index].analyst
      requires steps[index].agent == "" && steps[index].kind != AWAIT_CALLBACK
      modifies this`store, this`log, this`told
      ensures TaskWith(if further then Some(Segment(exec, index + 1)) else None)
           == RunTool(steps, old(TaskWith(Some(Segment(held, index)))), held, index, o)
    {
      var step := steps[index];
      exec := held;
      if o.call.StartNotJournaled? {
        FailJournal(exec);
        return false, exec;
      }
      if IsInternal(step.tool) {
        further := RunInternalStep(steps, exec, index, o.call);
        return;
      }
      if o.call.NotConfigured? {
        return false, exec;
      }
      if callbackIndex > index && UsesCredentials(step) {
        if o.call.PrepareNotSaved? {
          return false, exec;
        }
        exec := Saved(AWAIT_CALLBACK, StepIDs(steps[..index + 1]), o.tokenKnown,
            AwaitName(steps[callbackIndex], callbackIndex));
        store := Some(exec);
      }
      if o.call.CrashAfterPrepare? {
        told := 0;
        return false, exec;
      }
      if !o.call.CrashAfterCall? && !o.call.Returned? {
        return false, exec;
      }
      log := log + [Handled(index, Called)];
      if o.call.CrashAfterCall? {
        told := 0;
        return false, exec;
      }
      if !o.call.ok {
        if step.tool != GENERATE_CODE {
          FailTool(exec);
        }
        return false, exec;
      }
      if !o.call.journaled {
        FailJournal(exec);
        return false, exec;
      }
      return true, exec;
    }

    /** executeLinear, from the stored execution: the steps after the completed ones, in order,
        until the run ends, pauses or fails. */
    method ExecuteLinear(steps: seq<Step>, outs: seq<Outcome>)
      requires |outs| == |steps| && store.Some?
      modifies this
      ensures TaskWith(None) == RunSegment(steps, old(TaskWith(Some(Segment(store.value, |store.value.completed|)))),
          outs)
    {
      var callbackIndex := FindAwait(steps);
      var exec := store.value;
      var index := |exec.completed|;
      ghost var goal := RunSegment(steps, TaskWith(Some(Segment(exec, index))), outs);
      while index < |steps|
        invariant RunSegment(steps, TaskWith(Some(Segment(exec, index))), outs) == goal
      {
        var step, o := steps[index], outs[index];
        ghost var next := Iterate(steps, TaskWith(Some(Segment(exec, index))), o);
        assert goal == RunSegment(steps, next, outs);
        if !StepShouldRun(step, o.cond) {
          if step.humanGate == "" && !o.skipJournaled {
            FailJournal(exec);
            return;
          }
          log := log + [Handled(index, SkippedByCondition)];
        } else if step.analyst {
          told := told + 1;
          return;
        } else if step.humanGate != "" {
          if exec.gate != step.humanGate {
            PauseAt(Saved(step.humanGate, StepIDs(steps[..index]), false, ""), o.pause);
            return;
          }
          log := log + [Handled(index, Resumed)];
        } else if step.agent != "" {
          var further := RunAgentStep(exec, index, o.call);
          if !further {
            return;
          }
        } else if step.kind == AWAIT_CALLBACK {
          PauseAt(Saved(AWAIT_CALLBACK, StepIDs(steps[..index]), true, AwaitName(step, index)), o.pause);
          return;
        } else {
          var further;
          further, exec := RunToolStep(steps, callbackIndex, exec, index, o);
          if !further {
            return;
          }
        }
        index := index + 1;
        assert next == TaskWith(Some(Segment(exec, index)));
      }
      told := told + 1;
    }
  }
}
