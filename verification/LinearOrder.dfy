/** The order in which a linear task handles its steps: where a stored callback wait can outlive the
    step it stands for, and that nothing else disturbs the order. */
module LinearOrder {
  import opened Pipelines
  import opened LinearTask

  /** The step indices of the log, in the order they were written. */
  function Indices(log: seq<Entry>): seq<nat>
  {
    if log == [] then []
    else
      var last := log[|log| - 1];
      Indices(log[..|log| - 1]) + if last.Handled? then [last.index] else []
  }

  lemma IndicesOneMore(log: seq<Entry>, e: Entry)
    ensures Indices(log + [e]) == Indices(log) + if e.Handled? then [e.index] else []
  {
    assert (log + [e])[..|log|] == log;
  }

  /** Exactly the first steps, in order, each once. */
  ghost predicate InOrder(log: seq<Entry>)
  {
    forall k | 0 <= k < |Indices(log)| :: Indices(log)[k] == k
  }

  // ---------- orderly runs ----------

  /** No crash, and a decision only while the task stands at a pause nothing has resumed yet. */
  predicate Orderly(t: Task, e: Event)
  {
    match e
    case Crash => false
    case Iteration(o) => !o.call.CrashAfterPrepare? && !o.call.CrashAfterCall?
    case Decide(_) => t.justPaused
    case _ => true
  }

  /** Every event of the sequence could happen and was orderly when it happened. */
  ghost predicate OrderlyRun(steps: seq<Step>, events: seq<Event>)
  {
    && After(steps, events).Some?
    && (events != [] ==>
          var last := |events| - 1;
          OrderlyRun(steps, events[..last]) && Orderly(After(steps, events[..last]).value, events[last]))
  }

  lemma OrderlyStep(steps: seq<Step>, events: seq<Event>, e: Event) returns (more: seq<Event>)
    requires OrderlyRun(steps, events)
    requires Can(steps, After(steps, events).value, e) && Orderly(After(steps, events).value, e)
    ensures more == events + [e] && OrderlyRun(steps, more)
    ensures After(steps, more) == Some(Do(steps, After(steps, events).value, e))
  {
    more := events + [e];
    AfterOneMore(steps, events, e);
    assert more[..|more| - 1] == events;
  }

  // ---------- where a stored wait leaks ----------

  /** A run at which a callback wait is stored can go past this step and leave the wait as it is. */
  predicate GoesPast(steps: seq<Step>, q: nat)
    requires q < |steps|
  {
    var step := steps[q];
    || step.when != ""
    || (!step.analyst && (step.humanGate == "" || step.humanGate == AWAIT_CALLBACK) && !Awaits(step) &&
        !Prepares(steps, q))
  }

  /** A run can stop at this step and leave the store as it is. */
  predicate StopsKeeping(step: Step)
  {
    || step.analyst
    || (step.humanGate == "" && step.agent != "")
    || (step.humanGate == "" && step.kind != AWAIT_CALLBACK && (!IsInternal(step.tool) || IsMemoryTool(step.tool)))
  }

  /** A run can call this step, stop there, and leave the store as it is. */
  predicate CallsAndStops(steps: seq<Step>, q: nat)
    requires q < |steps|
  {
    var step := steps[q];
    && !step.analyst && step.humanGate == ""
    && (step.agent != "" || (step.kind != AWAIT_CALLBACK
                             && (IsMemoryTool(step.tool) || (step.tool == GENERATE_CODE && !Prepares(steps, q)))))
  }

  /** From step q on, with a wait stored for an earlier step, a run can stop and leave it stored. */
  predicate Leaks(steps: seq<Step>, q: nat)
    decreases |steps| - q
  {
    q >= |steps| || StopsKeeping(steps[q]) || (GoesPast(steps, q) && Leaks(steps, q + 1))
  }

  /** The wait stored before the call of step i can outlive the step after it. */
  ghost predicate LeaksAfterPreparing(steps: seq<Step>, i: nat)
    requires i < |steps|
  {
    && Prepares(steps, i) && Reachable(steps, i)
    && (CallsAndStops(steps, i + 1) || (GoesPast(steps, i + 1) && Leaks(steps, i + 2)))
  }

  /** The wait of a conditional await step can outlive the step: a decision resumes the run at it,
      and then its condition does not hold. */
  ghost predicate LeaksAfterAwaiting(steps: seq<Step>, q: nat)
    requires q < |steps|
  {
    Awaits(steps[q]) && steps[q].when != "" && Reachable(steps, q) && Leaks(steps, q + 1)
  }

  ghost predicate NoLeak(steps: seq<Step>)
  {
    forall i: nat | i < |steps| :: !LeaksAfterPreparing(steps, i) && !LeaksAfterAwaiting(steps, i)
  }

  // ---------- what every orderly run keeps ----------

  predicate HasWait(t: Task)
  {
    t.store.Some? && t.store.value.hasToken
  }

  /** What the task can be resumed from has the length of the part already handled. */
  predicate StoredInStep(t: Task)
  {
    t.segment.None? && t.store.Some? && (t.justPaused || t.store.value.hasToken) ==>
      |t.store.value.completed| == |Indices(t.log)|
  }

  /** The wait stands for the step the run is at. */
  predicate Fresh(steps: seq<Step>, wait: Saved, index: nat)
  {
    && |wait.completed| == index < |steps|
    && ((index > 0 && Prepares(steps, index - 1)) || Awaits(steps[index]))
  }

  /** The wait stands for an earlier step, and will be gone before the run stops. */
  predicate Stale(steps: seq<Step>, wait: Saved, index: nat)
  {
    |wait.completed| < index && !Leaks(steps, index)
  }

  ghost predicate OrderInv(steps: seq<Step>, t: Task)
  {
    && InOrder(t.log) && StoredInStep(t)
    && (HasWait(t) ==> t.store.value.gate == AWAIT_CALLBACK)
    && (t.justPaused ==> t.segment.None?)
    && (t.justPaused && HasWait(t) ==> Fresh(steps, t.store.value, |t.store.value.completed|))
    && (t.segment.Some? ==>
          var seg := t.segment.value;
          && seg.index == |Indices(t.log)| && Reachable(steps, seg.index)
          && (seg.exec.hasToken ==> seg.exec.gate == AWAIT_CALLBACK)
          && (HasWait(t) ==>
                t.store.value == seg.exec && (Fresh(steps, seg.exec, seg.index) || Stale(steps, seg.exec, seg.index))))
  }

  /** What a run with a stored wait for a step of position c can do at step q leaks nothing. */
  ghost predicate Harmless(steps: seq<Step>, c: nat, q: nat)
    requires q < |steps|
  {
    && (GoesPast(steps, q) ==> !Leaks(steps, q + 1))
    && (StopsKeeping(steps[q]) ==> c == q)
    && !CallsAndStops(steps, q)
  }

  lemma PreparedIsHarmless(steps: seq<Step>, q: nat)
    requires 0 < q < |steps| && !LeaksAfterPreparing(steps, q - 1) && Reachable(steps, q) && Prepares(steps, q - 1)
    ensures Harmless(steps, q, q)
  {
    assert Reachable(steps, q - 1);
  }

  lemma AwaitedIsHarmless(steps: seq<Step>, q: nat)
    requires q < |steps| && !LeaksAfterAwaiting(steps, q) && Reachable(steps, q) && Awaits(steps[q])
    ensures Harmless(steps, q, q)
  {
  }

  lemma StaleIsHarmless(steps: seq<Step>, c: nat, q: nat)
    requires q < |steps| && !Leaks(steps, q)
    ensures Harmless(steps, c, q)
  {
  }

  lemma WaitIsSafeAt(steps: seq<Step>, t: Task)
    requires OrderInv(steps, t) && NoLeak(steps) && HasWait(t)
    requires t.segment.Some? && t.segment.value.index < |steps|
    ensures Harmless(steps, |t.store.value.completed|, t.segment.value.index)
  {
    var exec, q := t.segment.value.exec, t.segment.value.index;
    if Stale(steps, exec, q) {
      StaleIsHarmless(steps, |exec.completed|, q);
    } else if q > 0 && Prepares(steps, q - 1) {
      assert !LeaksAfterPreparing(steps, q - 1);
      PreparedIsHarmless(steps, q);
    } else {
      assert !LeaksAfterAwaiting(steps, q);
      AwaitedIsHarmless(steps, q);
    }
  }

  lemma AdvanceKeepsOrder(steps: seq<Step>, t: Task, how: How)
    requires OrderInv(steps, t) && NoLeak(steps)
    requires t.segment.Some? && t.segment.value.index < |steps| && !EndsRuns(steps, t.segment.value.index)
    requires HasWait(t) ==> GoesPast(steps, t.segment.value.index)
    ensures OrderInv(steps, Advance(t, t.segment.value.exec, t.segment.value.index, how))
  {
    IndicesOneMore(t.log, Handled(t.segment.value.index, how));
    if HasWait(t) {
      WaitIsSafeAt(steps, t);
    }
  }

  /** Stopping, the step at hand called or not, with a store that has no wait or one in step. */
  lemma StopKeepsOrder(steps: seq<Step>, t: Task, store: Option<Saved>, called: bool)
    requires OrderInv(steps, t) && t.segment.Some?
    requires store.Some? && store.value.hasToken ==>
      store.value.gate == AWAIT_CALLBACK && |store.value.completed| == t.segment.value.index + if called then 1 else 0
    ensures OrderInv(steps, Stop(if called then LogCall(t, t.segment.value.index) else t, store))
  {
    IndicesOneMore(t.log, Handled(t.segment.value.index, Called));
  }

  lemma StopKeepingKeepsOrder(steps: seq<Step>, t: Task, called: bool)
    requires OrderInv(steps, t) && NoLeak(steps) && t.segment.Some? && t.segment.value.index < |steps|
    requires if called then CallsAndStops(steps, t.segment.value.index) else StopsKeeping(steps[t.segment.value.index])
    ensures OrderInv(steps, Stop(if called then LogCall(t, t.segment.value.index) else t, t.store))
  {
    if HasWait(t) {
      WaitIsSafeAt(steps, t);
    }
    StopKeepsOrder(steps, t, t.store, called);
  }

  lemma PauseKeepsOrder(steps: seq<Step>, t: Task, o: LinearPause, saved: Saved)
    requires OrderInv(steps, t) && t.segment.Some? && t.segment.value.index < |steps|
    requires |saved.completed| == t.segment.value.index
    requires saved.hasToken ==> saved.gate == AWAIT_CALLBACK && Awaits(steps[t.segment.value.index])
    ensures OrderInv(steps, Pause(t, o, saved))
  {
  }

  lemma AgentKeepsOrder(steps: seq<Step>, t: Task, call: LinearCall)
    requires OrderInv(steps, t) && NoLeak(steps) && t.segment.Some? && t.segment.value.index < |steps|
    requires var step := steps[t.segment.value.index]; !step.analyst && step.humanGate == "" && step.agent != ""
    requires !call.CrashAfterPrepare? && !call.CrashAfterCall?
    ensures OrderInv(steps, CallAgent(t, t.segment.value.exec, t.segment.value.index, call))
  {
    var exec := t.segment.value.exec;
    StopKeepsOrder(steps, t, JournalFailed(exec), false);
    StopKeepsOrder(steps, t, JournalFailed(exec), true);
    StopKeepingKeepsOrder(steps, t, false);
    StopKeepingKeepsOrder(steps, t, true);
    AdvanceKeepsOrder(steps, t, Called);
  }

  lemma InternalKeepsOrder(steps: seq<Step>, t: Task, call: LinearCall)
    requires OrderInv(steps, t) && NoLeak(steps) && t.segment.Some? && t.segment.value.index < |steps|
    requires CanBeCalled(steps[t.segment.value.index]) && steps[t.segment.value.index].agent == ""
    requires IsInternal(steps[t.segment.value.index].tool)
    requires !call.CrashAfterPrepare? && !call.CrashAfterCall?
    ensures OrderInv(steps, CallInternal(steps, t, t.segment.value.exec, t.segment.value.index, call))
  {
    var exec := t.segment.value.exec;
    StopKeepsOrder(steps, t, JournalFailed(exec), true);
    if IsMemoryTool(steps[t.segment.value.index].tool) {
      StopKeepingKeepsOrder(steps, t, true);
    }
    AdvanceKeepsOrder(steps, t, Called);
  }

  /** A registry tool for which no wait is stored. */
  lemma PlainToolKeepsOrder(steps: seq<Step>, t: Task, o: Outcome)
    requires OrderInv(steps, t) && NoLeak(steps) && t.segment.Some? && t.segment.value.index < |steps|
    requires IsRegistryTool(steps[t.segment.value.index]) && RunsPlainly(steps, t.segment.value.index, o)
    requires !o.call.CrashAfterPrepare? && !o.call.CrashAfterCall?
    ensures OrderInv(steps, RunTool(steps, t, t.segment.value.exec, t.segment.value.index, o))
  {
    var exec, index := t.segment.value.exec, t.segment.value.index;
    StopKeepsOrder(steps, t, JournalFailed(exec), false);
    StopKeepingKeepsOrder(steps, t, false);
    if !Prepares(steps, index) {
      StopKeepsOrder(steps, t, JournalFailed(exec), true);
      StopKeepsOrder(steps, t, ToolFailed(LogCall(t, index), exec).store, true);
      if steps[index].tool == GENERATE_CODE {
        StopKeepingKeepsOrder(steps, t, true);
      }
      AdvanceKeepsOrder(steps, t, Called);
    }
  }

  /** A registry tool before whose call the wait is stored: the list is one ahead until the call. */
  lemma PreparingToolKeepsOrder(steps: seq<Step>, t: Task, o: Outcome)
    requires OrderInv(steps, t) && t.segment.Some? && t.segment.value.index < |steps|
    requires Prepares(steps, t.segment.value.index) && !RunsPlainly(steps, t.segment.value.index, o)
    requires !o.call.CrashAfterPrepare? && !o.call.CrashAfterCall?
    ensures OrderInv(steps, RunTool(steps, t, t.segment.value.exec, t.segment.value.index, o))
  {
    var index := t.segment.value.index;
    var prepared := PreparedWait(steps, index, o.tokenKnown);
    var t' := RunTool(steps, t, t.segment.value.exec, index, o);
    IndicesOneMore(t.log, Handled(index, Called));
    PreparedCases(steps, t, o);
    if t'.segment.Some? {
      ReachablePast(steps, index);
      assert Fresh(steps, prepared, index + 1);
    }
  }

  lemma PreparedCases(steps: seq<Step>, t: Task, o: Outcome)
    requires t.segment.Some? && t.segment.value.index < |steps|
    requires Prepares(steps, t.segment.value.index) && !RunsPlainly(steps, t.segment.value.index, o)
    requires !o.call.CrashAfterPrepare? && !o.call.CrashAfterCall?
    ensures var index := t.segment.value.index;
      var prepared := PreparedWait(steps, index, o.tokenKnown);
      var t' := RunTool(steps, t, t.segment.value.exec, index, o);
      && t'.log == t.log + [Handled(index, Called)] && t'.justPaused == t.justPaused && t'.store.Some?
      && |prepared.completed| == index + 1 < |steps|
      && (t'.store.value.hasToken ==> t'.store.value == prepared)
      && (t'.segment.Some? ==> t'.segment.value == Segment(prepared, index + 1) && t'.store.value == prepared)
  {
  }

  lemma IterationKeepsOrder(steps: seq<Step>, t: Task, o: Outcome)
    requires OrderInv(steps, t) && NoLeak(steps)
    requires Can(steps, t, Iteration(o)) && Orderly(t, Iteration(o))
    ensures OrderInv(steps, Iterate(steps, t, o))
  {
    var exec, index := t.segment.value.exec, t.segment.value.index;
    var step := steps[index];
    if !StepShouldRun(step, o.cond) {
      AdvanceKeepsOrder(steps, t, SkippedByCondition);
      StopKeepsOrder(steps, t, JournalFailed(exec), false);
    } else if step.analyst {
      StopKeepingKeepsOrder(steps, t, false);
    } else if step.humanGate != "" {
      if exec.gate == step.humanGate {
        AdvanceKeepsOrder(steps, t, Resumed);
      }
      PauseKeepsOrder(steps, t, o.pause, Saved(step.humanGate, StepIDs(steps[..index]), false, ""));
    } else if step.agent != "" {
      AgentKeepsOrder(steps, t, o.call);
    } else if step.kind == AWAIT_CALLBACK {
      PauseKeepsOrder(steps, t, o.pause, Saved(AWAIT_CALLBACK, StepIDs(steps[..index]), true, AwaitName(step, index)));
    } else if IsInternal(step.tool) {
      StopKeepsOrder(steps, t, JournalFailed(exec), false);
      InternalKeepsOrder(steps, t, o.call);
    } else if RunsPlainly(steps, index, o) {
      PlainToolKeepsOrder(steps, t, o);
    } else {
      PreparingToolKeepsOrder(steps, t, o);
    }
  }

  lemma DecisionKeepsOrder(steps: seq<Step>, t: Task, approved: bool)
    requires OrderInv(steps, t) && SafetyInv(steps, t) && t.justPaused && Can(steps, t, Decide(approved))
    ensures OrderInv(steps, Do(steps, t, Decide(approved)))
  {
    IndicesOneMore(t.log, Approval(t.store.value.gate));
  }

  lemma AnswerKeepsOrder(steps: seq<Step>, t: Task, saved: bool, journaled: bool)
    requires OrderInv(steps, t) && SafetyInv(steps, t) && Can(steps, t, Callback(saved, journaled))
    ensures OrderInv(steps, Do(steps, t, Callback(saved, journaled)))
  {
    var c := |t.store.value.completed|;
    IndicesOneMore(t.log, Handled(c, CalledBack));
    ReachablePast(steps, c);
  }

  /** At the end of the steps no wait is stored. */
  lemma FinishKeepsOrder(steps: seq<Step>, t: Task)
    requires OrderInv(steps, t) && Can(steps, t, Finish)
    ensures OrderInv(steps, Do(steps, t, Finish))
  {
    assert Leaks(steps, t.segment.value.index);
    assert !HasWait(t);
  }

  lemma EventKeepsOrder(steps: seq<Step>, t: Task, e: Event)
    requires OrderInv(steps, t) && SafetyInv(steps, t) && NoLeak(steps) && Can(steps, t, e) && Orderly(t, e)
    requires e.Start? ==> t == NEW_TASK
    ensures OrderInv(steps, Do(steps, t, e))
  {
    match e
    case Iteration(o) => IterationKeepsOrder(steps, t, o);
    case Decide(approved) => DecisionKeepsOrder(steps, t, approved);
    case Callback(saved, journaled) => AnswerKeepsOrder(steps, t, saved, journaled);
    case Finish => FinishKeepsOrder(steps, t);
    case _ =>
  }

  lemma {:induction false} NotStartedIsNew(steps: seq<Step>, events: seq<Event>)
    requires After(steps, events).Some? && !After(steps, events).value.started
    ensures After(steps, events).value == NEW_TASK
  {
    if events != [] {
      NotStartedIsNew(steps, events[..|events| - 1]);
    }
  }

  lemma {:induction false} OrderlyRunKeepsOrder(steps: seq<Step>, events: seq<Event>)
    requires NoLeak(steps) && OrderlyRun(steps, events)
    ensures OrderInv(steps, After(steps, events).value)
  {
    if events != [] {
      var last := |events| - 1;
      OrderlyRunKeepsOrder(steps, events[..last]);
      RunKeepsSafety(steps, events[..last]);
      if events[last].Start? {
        NotStartedIsNew(steps, events[..last]);
      }
      EventKeepsOrder(steps, After(steps, events[..last]).value, events[last]);
    }
  }

  // ---------- a leaking wait runs steps again ----------

  ghost predicate OrderlyReaches(steps: seq<Step>, events: seq<Event>, k: nat)
  {
    && OrderlyRun(steps, events) && Reaches(steps, events, k)
    && var log := After(steps, events).value.log; InOrder(log) && |Indices(log)| == k
  }

  /** One event that leaves an entry about step k and moves the run past it. */
  lemma OrderlyGo(steps: seq<Step>, events: seq<Event>, e: Event, k: nat) returns (more: seq<Event>)
    requires OrderlyRun(steps, events)
    requires Can(steps, After(steps, events).value, e) && Orderly(After(steps, events).value, e)
    requires var t := After(steps, events).value;
      InOrder(t.log) && |Indices(t.log)| == k && forall x <- t.log | x.Handled? :: x.index < k
    requires var t, t' := After(steps, events).value, Do(steps, After(steps, events).value, e);
      t'.segment.Some? && t'.segment.value.index == k + 1 && exists how :: t'.log == t.log + [Handled(k, how)]
    ensures OrderlyReaches(steps, more, k + 1) && more == events + [e]
  {
    var log := After(steps, events).value.log;
    more := OrderlyStep(steps, events, e);
    var how :| After(steps, more).value.log == log + [Handled(k, how)];
    IndicesOneMore(log, Handled(k, how));
  }

  lemma PastInOneGo(steps: seq<Step>, events: seq<Event>, j: nat) returns (more: seq<Event>)
    requires j < |steps| && OrderlyReaches(steps, events, j)
    requires InOneGo(steps[j], After(steps, events).value.segment.value.exec.gate)
    ensures OrderlyReaches(steps, more, j + 1)
    ensures After(steps, more) == Some(Iterate(steps, After(steps, events).value, PassOutcome(steps[j])))
  {
    IteratePast(steps, After(steps, events).value);
    more := OrderlyGo(steps, events, Iteration(PassOutcome(steps[j])), j);
  }

  /** A gate is paused at, approved, and resumed through. */
  lemma PastGate(steps: seq<Step>, events: seq<Event>, j: nat) returns (more: seq<Event>)
    requires j < |steps| && OrderlyReaches(steps, events, j)
    requires !steps[j].analyst && steps[j].when == "" && steps[j].humanGate != ""
    requires After(steps, events).value.segment.value.exec.gate != steps[j].humanGate
    ensures OrderlyReaches(steps, more, j + 1)
  {
    var t := After(steps, events).value;
    more := OrderlyStep(steps, events, Iteration(SMOOTH));
    more := OrderlyStep(steps, more, Decide(true));
    IndicesOneMore(t.log, Approval(steps[j].humanGate));
    assert After(steps, more).value.log == t.log + [Approval(steps[j].humanGate)];
    IteratePast(steps, After(steps, more).value);
    more := OrderlyGo(steps, more, Iteration(PassOutcome(steps[j])), j);
  }

  /** A stored wait that is in step is answered, which leads past its step. */
  lemma PastAnswer(steps: seq<Step>, events: seq<Event>, j: nat) returns (more: seq<Event>)
    requires OrderlyRun(steps, events)
    requires var t := After(steps, events).value;
      && t.segment.None? && HasWait(t) && t.store.value.gate == AWAIT_CALLBACK && |t.store.value.completed| == j
      && InOrder(t.log) && |Indices(t.log)| == j && forall x <- t.log | x.Handled? :: x.index < j
    ensures OrderlyReaches(steps, more, j + 1)
  {
    var t := After(steps, events).value;
    assert Do(steps, t, Callback(true, true)).log == t.log + [Handled(j, CalledBack)];
    more := OrderlyGo(steps, events, Callback(true, true), j);
  }

  lemma OrderlyPast(steps: seq<Step>, events: seq<Event>, j: nat) returns (more: seq<Event>)
    requires j < |steps| && OrderlyReaches(steps, events, j)
    requires steps[j].analyst ==> steps[j].when != ""
    ensures OrderlyReaches(steps, more, j + 1)
  {
    var step := steps[j];
    if InOneGo(step, After(steps, events).value.segment.value.exec.gate) {
      more := PastInOneGo(steps, events, j);
    } else if step.humanGate != "" {
      more := PastGate(steps, events, j);
    } else {
      more := OrderlyStep(steps, events, Iteration(SMOOTH));
      more := PastAnswer(steps, more, j);
    }
  }

  /** The wait is stored, for a step of position c, and the run is at step q. */
  ghost predicate Holding(steps: seq<Step>, events: seq<Event>, c: nat, q: nat)
  {
    && OrderlyReaches(steps, events, q)
    && var t := After(steps, events).value;
       && HasWait(t) && t.store.value.gate == AWAIT_CALLBACK && |t.store.value.completed| == c
       && t.segment.value.exec == t.store.value
  }

  /** The run has stopped past the step of position c, and its wait is still stored. */
  ghost predicate Kept(steps: seq<Step>, events: seq<Event>, c: nat)
  {
    && OrderlyRun(steps, events)
    && var t := After(steps, events).value;
       && t.segment.None? && HasWait(t) && t.store.value.gate == AWAIT_CALLBACK && |t.store.value.completed| == c
       && InOrder(t.log) && c < |Indices(t.log)|
  }

  lemma CallPreparing(steps: seq<Step>, events: seq<Event>, i: nat) returns (more: seq<Event>)
    requires i < |steps| && OrderlyReaches(steps, events, i) && Prepares(steps, i)
    ensures Holding(steps, more, i + 1, i + 1)
  {
    var t := After(steps, events).value;
    var t' := Iterate(steps, t, SMOOTH);
    assert t' == Advance(StorePrepared(t, PreparedWait(steps, i, true), i), PreparedWait(steps, i, true), i, Called);
    assert t'.log == t.log + [Handled(i, Called)];
    more := OrderlyGo(steps, events, Iteration(SMOOTH), i);
  }

  /** An analyst step right after a step that stored the wait: the run stops, and is called back. */
  lemma PastAnalyst(steps: seq<Step>, events: seq<Event>, j: nat) returns (more: seq<Event>)
    requires j < |steps| && Holding(steps, events, j, j) && steps[j].analyst
    ensures OrderlyReaches(steps, more, j + 1)
  {
    more := OrderlyStep(steps, events, Iteration(SMOOTH));
    more := PastAnswer(steps, more, j);
  }

  lemma PastPreparedAnalyst(steps: seq<Step>, events: seq<Event>, i: nat) returns (more: seq<Event>)
    requires i < |steps| && OrderlyReaches(steps, events, i) && Prepares(steps, i) && steps[i + 1].analyst
    ensures OrderlyReaches(steps, more, i + 2)
  {
    more := CallPreparing(steps, events, i);
    more := PastAnalyst(steps, more, i + 1);
  }

  lemma ReachableBack(steps: seq<Step>, k: nat)
    requires k < |steps| && Reachable(steps, k + 1)
    ensures Reachable(steps, k)
    ensures steps[k].analyst && steps[k].when == "" ==> k > 0 && Prepares(steps, k - 1) && Reachable(steps, k - 1)
  {
    assert !EndsRuns(steps, k);
  }

  lemma {:induction false} OrderlyReach(steps: seq<Step>, k: nat) returns (events: seq<Event>)
    requires k <= |steps| && Reachable(steps, k)
    ensures OrderlyReaches(steps, events, k)
  {
    if k == 0 {
      events := OrderlyStart(steps);
    } else {
      ReachableBack(steps, k - 1);
      if steps[k - 1].analyst && steps[k - 1].when == "" {
        events := OrderlyReach(steps, k - 2);
        events := PastPreparedAnalyst(steps, events, k - 2);
      } else {
        events := OrderlyReach(steps, k - 1);
        events := OrderlyPast(steps, events, k - 1);
      }
    }
  }

  lemma OrderlyStart(steps: seq<Step>) returns (events: seq<Event>)
    ensures OrderlyReaches(steps, events, 0)
  {
    events := OrderlyStep(steps, [], Start);
  }

  lemma PassHolding(steps: seq<Step>, events: seq<Event>, c: nat, q: nat) returns (more: seq<Event>)
    requires q < |steps| && Holding(steps, events, c, q) && GoesPast(steps, q)
    ensures Holding(steps, more, c, q + 1)
  {
    more := PastInOneGo(steps, events, q);
    IteratePast(steps, After(steps, events).value);
  }

  /** The outcome that stops a run at a step, the store left as it is. */
  function StopOutcome(step: Step): Outcome
  {
    if IsMemoryTool(step.tool) && step.agent == "" && !step.analyst then SMOOTH.(call := Returned(false, true))
    else SMOOTH.(call := NotConfigured)
  }

  lemma IterateStops(steps: seq<Step>, t: Task)
    requires t.segment.Some? && t.segment.value.index < |steps| && StopsKeeping(steps[t.segment.value.index])
    ensures var q := t.segment.value.index;
      var t' := Iterate(steps, t, StopOutcome(steps[q]));
      && t'.segment.None? && t'.store == t.store && (t'.log == t.log || t'.log == t.log + [Handled(q, Called)])
  {
  }

  lemma StopAt(steps: seq<Step>, events: seq<Event>, c: nat, q: nat) returns (more: seq<Event>)
    requires q < |steps| && c < q && Holding(steps, events, c, q) && StopsKeeping(steps[q])
    ensures Kept(steps, more, c)
  {
    var t := After(steps, events).value;
    IterateStops(steps, t);
    IndicesOneMore(t.log, Handled(q, Called));
    more := OrderlyStep(steps, events, Iteration(StopOutcome(steps[q])));
  }

  lemma FinishKeeping(steps: seq<Step>, events: seq<Event>, c: nat) returns (more: seq<Event>)
    requires c < |steps| && Holding(steps, events, c, |steps|)
    ensures Kept(steps, more, c)
  {
    more := OrderlyStep(steps, events, Finish);
  }

  lemma IterateCallsAndStops(steps: seq<Step>, t: Task)
    requires t.segment.Some? && t.segment.value.index < |steps| && CallsAndStops(steps, t.segment.value.index)
    ensures var q := t.segment.value.index;
      var t' := Iterate(steps, t, SMOOTH.(call := Returned(false, true)));
      t'.segment.None? && t'.store == t.store && t'.log == t.log + [Handled(q, Called)]
  {
  }

  /** Where a run from step q on can stop with the wait stored, all steps before passed. */
  lemma {:induction false} LeakPoint(steps: seq<Step>, q: nat) returns (s: nat)
    requires q <= |steps| && Leaks(steps, q)
    ensures q <= s <= |steps| && (s < |steps| ==> StopsKeeping(steps[s]))
    ensures forall r | q <= r < s :: GoesPast(steps, r)
    decreases |steps| - q
  {
    if q == |steps| || StopsKeeping(steps[q]) {
      s := q;
    } else {
      s := LeakPoint(steps, q + 1);
    }
  }

  lemma {:induction false} PassUntil(steps: seq<Step>, events: seq<Event>, c: nat, q: nat, s: nat)
      returns (more: seq<Event>)
    requires q <= s <= |steps| && Holding(steps, events, c, q) && forall r | q <= r < s :: GoesPast(steps, r)
    ensures Holding(steps, more, c, s)
    decreases s - q
  {
    if q == s {
      more := events;
    } else {
      more := PassHolding(steps, events, c, q);
      more := PassUntil(steps, more, c, q + 1, s);
    }
  }

  lemma StopHolding(steps: seq<Step>, events: seq<Event>, c: nat, q: nat) returns (more: seq<Event>)
    requires q <= |steps| && c < q && Holding(steps, events, c, q) && Leaks(steps, q)
    ensures Kept(steps, more, c)
  {
    var s := LeakPoint(steps, q);
    more := PassUntil(steps, events, c, q, s);
    if s == |steps| {
      more := FinishKeeping(steps, more, c);
    } else {
      more := StopAt(steps, more, c, s);
    }
  }

  lemma CallAndStop(steps: seq<Step>, events: seq<Event>, q: nat) returns (more: seq<Event>)
    requires q < |steps| && Holding(steps, events, q, q) && CallsAndStops(steps, q)
    ensures Kept(steps, more, q)
  {
    var t := After(steps, events).value;
    IterateCallsAndStops(steps, t);
    IndicesOneMore(t.log, Handled(q, Called));
    more := OrderlyStep(steps, events, Iteration(SMOOTH.(call := Returned(false, true))));
  }

  lemma KeepPrepared(steps: seq<Step>, i: nat) returns (events: seq<Event>)
    requires i < |steps| && LeaksAfterPreparing(steps, i)
    ensures Kept(steps, events, i + 1)
  {
    events := OrderlyReach(steps, i);
    events := CallPreparing(steps, events, i);
    if CallsAndStops(steps, i + 1) {
      events := CallAndStop(steps, events, i + 1);
    } else {
      events := PassHolding(steps, events, i + 1, i + 1);
      events := StopHolding(steps, events, i + 1, i + 2);
    }
  }

  lemma KeepAwaited(steps: seq<Step>, q: nat) returns (events: seq<Event>)
    requires q < |steps| && LeaksAfterAwaiting(steps, q)
    ensures Kept(steps, events, q)
  {
    events := OrderlyReach(steps, q);
    events := DecideAtAwait(steps, events, q);
    events := PassHolding(steps, events, q, q);
    events := StopHolding(steps, events, q, q + 1);
  }

  /** A decision resumes a task that waits for a callback; the wait stays stored. */
  lemma DecideAtAwait(steps: seq<Step>, events: seq<Event>, q: nat) returns (more: seq<Event>)
    requires q < |steps| && OrderlyReaches(steps, events, q) && Awaits(steps[q])
    ensures Holding(steps, more, q, q)
  {
    var log := After(steps, events).value.log;
    more := OrderlyStep(steps, events, Iteration(SMOOTH));
    more := OrderlyStep(steps, more, Decide(true));
    IndicesOneMore(log, Approval(AWAIT_CALLBACK));
    assert After(steps, more).value.log == log + [Approval(AWAIT_CALLBACK)];
  }

  /** The callback of a wait that was kept logs an earlier step again. */
  lemma KeptRunsAgain(steps: seq<Step>, events: seq<Event>, c: nat) returns (more: seq<Event>)
    requires Kept(steps, events, c)
    ensures OrderlyRun(steps, more) && !InOrder(After(steps, more).value.log)
    ensures !StoredInStep(After(steps, events).value)
  {
    var log := After(steps, events).value.log;
    more := OrderlyStep(steps, events, Callback(true, true));
    IndicesOneMore(log, Handled(c, CalledBack));
    assert Indices(log + [Handled(c, CalledBack)])[|Indices(log)|] == c;
  }

  /** Every orderly run handles the steps strictly in order, each once, if and only if no stored
      wait can leak; and just then the stored list is always of the length already handled
      wherever the task can be resumed. */
  lemma StepsRunInOrderExactly(steps: seq<Step>)
    ensures NoLeak(steps) <==> forall events | OrderlyRun(steps, events) :: InOrder(After(steps, events).value.log)
    ensures NoLeak(steps) <==> forall events | OrderlyRun(steps, events) :: StoredInStep(After(steps, events).value)
  {
    if NoLeak(steps) {
      forall events | OrderlyRun(steps, events)
        ensures InOrder(After(steps, events).value.log) && StoredInStep(After(steps, events).value)
      {
        OrderlyRunKeepsOrder(steps, events);
      }
    } else {
      var i: nat :| i < |steps| && (LeaksAfterPreparing(steps, i) || LeaksAfterAwaiting(steps, i));
      var c := if LeaksAfterPreparing(steps, i) then i + 1 else i;
      var events;
      if LeaksAfterPreparing(steps, i) {
        events := KeepPrepared(steps, i);
      } else {
        events := KeepAwaited(steps, i);
      }
      var more := KeptRunsAgain(steps, events, c);
    }
  }

  // ---------- two runs that repeat steps ----------

  const GATE_THEN_PAY: seq<Step> := [BLANK.(humanGate := "manager"), BLANK.(tool := "pay")]

  lemma ApproveAndPay(events: seq<Event>) returns (more: seq<Event>)
    requires After(GATE_THEN_PAY, events).Some?
    requires var t := After(GATE_THEN_PAY, events).value;
      t.segment.None? && t.store == Some(Saved("manager", [], false, ""))
    ensures After(GATE_THEN_PAY, more).Some?
    ensures var t, t' := After(GATE_THEN_PAY, events).value, After(GATE_THEN_PAY, more).value;
      && t'.segment.None? && t'.store == t.store
      && t'.log == t.log + [Approval("manager")] + [Handled(0, Resumed)] + [Handled(1, Called)]
  {
    var go := Iteration(SMOOTH);
    assert LastAwait(GATE_THEN_PAY) == -1 by {
      assert GATE_THEN_PAY[..1][..0] == [];
    }
    AfterOneMore(GATE_THEN_PAY, events, Decide(true));
    more := events + [Decide(true)];
    AfterOneMore(GATE_THEN_PAY, more, go);
    more := more + [go];
    AfterOneMore(GATE_THEN_PAY, more, go);
    more := more + [go];
    AfterOneMore(GATE_THEN_PAY, more, Finish);
    more := more + [Finish];
  }

  /** A second approval, processed after the first has resumed the run and before the analyst has
      written the completion, runs the steps after the gate again: an approval does not clear the
      stored gate. */
  lemma SecondApprovalRunsAgain() returns (events: seq<Event>)
    ensures NoLeak(GATE_THEN_PAY) && After(GATE_THEN_PAY, events).Some?
    ensures Indices(After(GATE_THEN_PAY, events).value.log) == [0, 1, 0, 1]
  {
    assert LastAwait(GATE_THEN_PAY) == -1 by {
      assert GATE_THEN_PAY[..1][..0] == [];
    }
    AfterOneMore(GATE_THEN_PAY, [], Start);
    AfterOneMore(GATE_THEN_PAY, [Start], Iteration(SMOOTH));
    events := [Start] + [Iteration(SMOOTH)];
    events := ApproveAndPay(events);
    var once := After(GATE_THEN_PAY, events).value.log;
    events := ApproveAndPay(events);
    RunIndices([]);
    assert once == [] + [Approval("manager")] + [Handled(0, Resumed)] + [Handled(1, Called)];
    RunIndices(once);
  }

  lemma RunIndices(log: seq<Entry>)
    ensures Indices(log + [Approval("manager")] + [Handled(0, Resumed)] + [Handled(1, Called)]) == Indices(log) + [0, 1]
  {
    IndicesOneMore(log, Approval("manager"));
    IndicesOneMore(log + [Approval("manager")], Handled(0, Resumed));
    IndicesOneMore(log + [Approval("manager")] + [Handled(0, Resumed)], Handled(1, Called));
  }

  const SUBMIT_AWAIT_PAY: seq<Step> := [
    BLANK.(tool := "submit", withParams := ["{{.callback_token}}"]),
    BLANK.(id := "answer", kind := AWAIT_CALLBACK, when := "wait"),
    BLANK.(tool := "pay")]

  /** The run up to its end, the await step skipped: the wait stored by "submit" is still there. */
  /** What a run that skips the await step leaves. */
  ghost predicate SkippedAwait(steps: seq<Step>, events: seq<Event>)
  {
    && OrderlyRun(steps, events) && (forall e <- events :: !e.Decide?)
    && var t := After(steps, events).value;
       && t.segment.None? && t.store.Some? && t.store.value.gate == AWAIT_CALLBACK && t.store.value.hasToken
       && |t.store.value.completed| == 1 && t.told == 1
       && t.log == [Handled(0, Called)] + [Handled(1, SkippedByCondition)] + [Handled(2, Called)]
  }

  lemma SkipAwait(steps: seq<Step>) returns (events: seq<Event>)
    requires |steps| == 3 && Prepares(steps, 0) && steps[0].when == ""
    requires steps[1].when != "" && steps[1].humanGate == ""
    requires steps[2].when == "" && IsRegistryTool(steps[2]) && !Prepares(steps, 2)
    ensures SkippedAwait(steps, events)
  {
    events := SkipSecond(steps);
    events := OrderlyStep(steps, events, Iteration(SMOOTH));
    events := OrderlyStep(steps, events, Finish);
  }

  lemma SkipSecond(steps: seq<Step>) returns (events: seq<Event>)
    requires |steps| == 3 && Prepares(steps, 0) && steps[0].when == ""
    requires steps[1].when != "" && steps[1].humanGate == ""
    ensures OrderlyRun(steps, events) && forall e <- events :: !e.Decide?
    ensures var t, prepared := After(steps, events).value, PreparedWait(steps, 0, true);
      && t.store == Some(prepared) && t.segment == Some(Segment(prepared, 2)) && t.told == 0
      && t.log == [Handled(0, Called)] + [Handled(1, SkippedByCondition)]
  {
    events := OrderlyStep(steps, [], Start);
    events := OrderlyStep(steps, events, Iteration(SMOOTH));
    events := OrderlyStep(steps, events, Iteration(SMOOTH.(cond := Fails)));
  }

  lemma AwaitIsSkipped() returns (events: seq<Event>)
    ensures SkippedAwait(SUBMIT_AWAIT_PAY, events)
  {
    var steps := SUBMIT_AWAIT_PAY;
    assert LastAwait(steps) == 1 by {
      assert steps[..2][1].kind == AWAIT_CALLBACK;
    }
    assert Prepares(steps, 0) by {
      assert "callback_token" <= "{{.callback_token}}"[3..];
      assert steps[0].withParams[0] in steps[0].withParams;
    }
    events := SkipAwait(steps);
  }

  /** An await step skipped by its condition leaves the stored wait behind; its callback, until the
      analyst has written the completion, runs the steps after it again. */
  lemma SkippedAwaitRunsAgain() returns (events: seq<Event>)
    ensures OrderlyRun(SUBMIT_AWAIT_PAY, events)
    ensures Indices(After(SUBMIT_AWAIT_PAY, events).value.log) == [0, 1, 2, 1, 2]
  {
    assert LastAwait(SUBMIT_AWAIT_PAY) == 1 by {
      assert SUBMIT_AWAIT_PAY[..2][1].kind == AWAIT_CALLBACK;
    }
    events := AwaitIsSkipped();
    var log := After(SUBMIT_AWAIT_PAY, events).value.log;
    events := OrderlyStep(SUBMIT_AWAIT_PAY, events, Callback(true, true));
    events := OrderlyStep(SUBMIT_AWAIT_PAY, events, Iteration(SMOOTH));
    FiveIndices(Handled(0, Called), Handled(1, SkippedByCondition), Handled(2, Called), Handled(1, CalledBack),
        Handled(2, Called));
    assert After(SUBMIT_AWAIT_PAY, events).value.log == log + [Handled(1, CalledBack)] + [Handled(2, Called)];
  }

  lemma FiveIndices(a: Entry, b: Entry, c: Entry, d: Entry, e: Entry)
    requires a.Handled? && b.Handled? && c.Handled? && d.Handled? && e.Handled?
    ensures Indices([a] + [b] + [c] + [d] + [e]) == [a.index, b.index, c.index, d.index, e.index]
  {
    IndicesOneMore([], a);
    assert [] + [a] == [a];
    IndicesOneMore([a], b);
    IndicesOneMore([a] + [b], c);
    IndicesOneMore([a] + [b] + [c], d);
    IndicesOneMore([a] + [b] + [c] + [d], e);
  }
}
