/** When the analyst's completion of a linear task finds a callback wait stored, and so drops what the
    API may have accepted for it. */
module LinearCompletion {
  import opened Pipelines
  import opened LinearTask
  import opened LinearOrder

  // ---------- where a run can end with a wait stored ----------

  /** From step q on, with a wait stored, a run can come to the end of the steps or to an analyst step
      and leave it stored. */
  predicate TellsKeeping(steps: seq<Step>, q: nat)
    decreases |steps| - q
  {
    q >= |steps| || steps[q].analyst || (GoesPast(steps, q) && TellsKeeping(steps, q + 1))
  }

  /** The wait stored before the call of step i can outlive the run. */
  ghost predicate OutlivesAfterPreparing(steps: seq<Step>, i: nat)
    requires i < |steps|
  {
    Prepares(steps, i) && Reachable(steps, i) && TellsKeeping(steps, i + 1)
  }

  /** The wait of a conditional await step can outlive the run that a decision resumed at it. */
  ghost predicate OutlivesAfterAwaiting(steps: seq<Step>, q: nat)
    requires q < |steps|
  {
    Awaits(steps[q]) && steps[q].when != "" && Reachable(steps, q) && TellsKeeping(steps, q + 1)
  }

  ghost predicate NoWaitOutlives(steps: seq<Step>)
  {
    forall i: nat | i < |steps| :: !OutlivesAfterPreparing(steps, i) && !OutlivesAfterAwaiting(steps, i)
  }

  /** A completion is on its way, and drops the callback wait that is stored. */
  predicate CompletionDrops(steps: seq<Step>, t: Task)
  {
    Can(steps, t, Complete) && HasWait(t) && !HasWait(Do(steps, t, Complete))
  }

  // ---------- what every orderly run keeps ----------

  /** A run that has told the analyst leaves no wait, and nothing resumes the task. */
  ghost predicate ToldInv(steps: seq<Step>, t: Task)
  {
    && (t.told > 0 ==> t.segment.None? && !HasWait(t) && !t.justPaused)
    && (t.justPaused ==> t.segment.None?)
    && (t.justPaused && HasWait(t) ==>
          |t.store.value.completed| < |steps| && Awaits(steps[|t.store.value.completed|]))
    && (t.segment.Some? && HasWait(t) ==>
          t.segment.value.exec == t.store.value && !TellsKeeping(steps, t.segment.value.index))
  }

  lemma PauseKeepsTold(steps: seq<Step>, t: Task, o: LinearPause, saved: Saved)
    requires ToldInv(steps, t) && t.segment.Some?
    requires saved.hasToken ==> |saved.completed| < |steps| && Awaits(steps[|saved.completed|])
    ensures ToldInv(steps, Pause(t, o, saved))
  {
  }

  /** A step that is passed with its wait stored leaves a wait that tells nobody. */
  lemma AdvanceKeepsTold(steps: seq<Step>, t: Task, how: How)
    requires ToldInv(steps, t) && t.segment.Some? && t.segment.value.index < |steps|
    requires HasWait(t) ==> GoesPast(steps, t.segment.value.index)
    ensures ToldInv(steps, Advance(t, t.segment.value.exec, t.segment.value.index, how))
  {
  }

  lemma CallKeepsTold(steps: seq<Step>, t: Task, index: nat, t': Task)
    requires ToldInv(steps, t) && t.segment.Some? && t.segment.value.index == index && index < |steps|
    requires HasWait(t) ==> GoesPast(steps, index)
    requires CallCases(t, t.segment.value.exec, index, t')
    ensures ToldInv(steps, t')
  {
    AdvanceKeepsTold(steps, t, Called);
  }

  /** After storing the wait, the call moves on, or stops without telling anybody. */
  lemma PreparedKeepsTold(steps: seq<Step>, t: Task, o: Outcome)
    requires ToldInv(steps, t) && NoWaitOutlives(steps) && SafetyInv(steps, t)
    requires t.segment.Some? && t.segment.value.index < |steps| && Prepares(steps, t.segment.value.index)
    requires !RunsPlainly(steps, t.segment.value.index, o)
    ensures var seg := t.segment.value; ToldInv(steps, RunTool(steps, t, seg.exec, seg.index, o))
  {
    var exec, index := t.segment.value.exec, t.segment.value.index;
    var prepared := PreparedWait(steps, index, o.tokenKnown);
    assert !OutlivesAfterPreparing(steps, index);
    CallsAreCases(steps, StorePrepared(t, prepared, index), prepared, index, o.call);
  }

  lemma PlainKeepsTold(steps: seq<Step>, t: Task, o: Outcome)
    requires ToldInv(steps, t) && t.segment.Some? && t.segment.value.index < |steps|
    requires RunsPlainly(steps, t.segment.value.index, o)
    requires var step := steps[t.segment.value.index]; step.humanGate == "" && !step.analyst && !Awaits(step)
    ensures var seg := t.segment.value; ToldInv(steps, RunTool(steps, t, seg.exec, seg.index, o))
  {
    var exec, index := t.segment.value.exec, t.segment.value.index;
    CallsAreCases(steps, t, exec, index, o.call);
    if !Prepares(steps, index) || IsInternal(steps[index].tool) {
      CallKeepsTold(steps, t, index, RunTool(steps, t, exec, index, o));
    }
  }

  lemma IterationKeepsTold(steps: seq<Step>, t: Task, o: Outcome)
    requires ToldInv(steps, t) && NoWaitOutlives(steps) && SafetyInv(steps, t) && Can(steps, t, Iteration(o))
    ensures ToldInv(steps, Iterate(steps, t, o))
  {
    var exec, index := t.segment.value.exec, t.segment.value.index;
    var step := steps[index];
    if !StepShouldRun(step, o.cond) {
      AdvanceKeepsTold(steps, t, SkippedByCondition);
    } else if step.analyst {
      assert TellsKeeping(steps, index);
    } else if step.humanGate != "" {
      if exec.gate == step.humanGate {
        AdvanceKeepsTold(steps, t, Resumed);
      }
    } else if step.agent != "" {
      CallsAreCases(steps, t, exec, index, o.call);
      CallKeepsTold(steps, t, index, CallAgent(t, exec, index, o.call));
    } else if step.kind == AWAIT_CALLBACK {
      PauseKeepsTold(steps, t, o.pause, Saved(AWAIT_CALLBACK, StepIDs(steps[..index]), true, AwaitName(step, index)));
    } else if RunsPlainly(steps, index, o) {
      PlainKeepsTold(steps, t, o);
    } else {
      PreparedKeepsTold(steps, t, o);
    }
  }

  lemma EventKeepsTold(steps: seq<Step>, t: Task, e: Event)
    requires ToldInv(steps, t) && NoWaitOutlives(steps) && SafetyInv(steps, t) && Can(steps, t, e) && Orderly(t, e)
    requires e.Start? ==> t == NEW_TASK
    ensures ToldInv(steps, Do(steps, t, e))
  {
    match e
    case Iteration(o) => IterationKeepsTold(steps, t, o);
    case Decide(approved) =>
      if HasWait(t) {
        assert !OutlivesAfterAwaiting(steps, |t.store.value.completed|);
      }
    case _ =>
  }

  lemma {:induction false} OrderlyRunKeepsTold(steps: seq<Step>, events: seq<Event>)
    requires NoWaitOutlives(steps) && OrderlyRun(steps, events)
    ensures ToldInv(steps, After(steps, events).value)
  {
    if events != [] {
      var last := |events| - 1;
      OrderlyRunKeepsTold(steps, events[..last]);
      RunKeepsSafety(steps, events[..last]);
      if events[last].Start? {
        NotStartedIsNew(steps, events[..last]);
      }
      EventKeepsTold(steps, After(steps, events[..last]).value, events[last]);
    }
  }

  // ---------- a run that ends with a wait stored ----------

  /** Where the run tells the analyst, all steps before passed. */
  lemma {:induction false} TellPoint(steps: seq<Step>, q: nat) returns (s: nat)
    requires q <= |steps| && TellsKeeping(steps, q)
    ensures q <= s <= |steps| && (s < |steps| ==> steps[s].analyst)
    ensures forall r | q <= r < s :: GoesPast(steps, r)
    decreases |steps| - q
  {
    if q == |steps| || steps[q].analyst {
      s := q;
    } else {
      s := TellPoint(steps, q + 1);
    }
  }

  lemma TellHolding(steps: seq<Step>, events: seq<Event>, c: nat, q: nat) returns (more: seq<Event>)
    requires q <= |steps| && Holding(steps, events, c, q) && TellsKeeping(steps, q)
    ensures OrderlyRun(steps, more) && CompletionDrops(steps, After(steps, more).value)
    ensures After(steps, more).value.segment.None?
  {
    var s := TellPoint(steps, q);
    more := PassUntil(steps, events, c, q, s);
    if s == |steps| {
      more := OrderlyStep(steps, more, Finish);
    } else {
      more := OrderlyStep(steps, more, Iteration(SMOOTH));
    }
  }

  lemma ReachDoomed(steps: seq<Step>, i: nat) returns (events: seq<Event>)
    requires i < |steps| && (OutlivesAfterPreparing(steps, i) || OutlivesAfterAwaiting(steps, i))
    ensures OrderlyRun(steps, events) && CompletionDrops(steps, After(steps, events).value)
    ensures After(steps, events).value.segment.None?
  {
    events := OrderlyReach(steps, i);
    if OutlivesAfterPreparing(steps, i) {
      events := CallPreparing(steps, events, i);
      events := TellHolding(steps, events, i + 1, i + 1);
    } else {
      events := DecideAtAwait(steps, events, i);
      events := PassHolding(steps, events, i, i);
      events := TellHolding(steps, events, i, i + 1);
    }
  }

  /** In an orderly run a completion can drop a stored callback wait, and what the API accepted for it,
      if and only if some wait can outlive its run. */
  lemma CompletionDropsExactly(steps: seq<Step>)
    ensures NoWaitOutlives(steps) <==>
        forall events | OrderlyRun(steps, events) :: !CompletionDrops(steps, After(steps, events).value)
  {
    if NoWaitOutlives(steps) {
      forall events | OrderlyRun(steps, events)
        ensures !CompletionDrops(steps, After(steps, events).value)
      {
        OrderlyRunKeepsTold(steps, events);
      }
    } else {
      var i: nat :| i < |steps| && (OutlivesAfterPreparing(steps, i) || OutlivesAfterAwaiting(steps, i));
      var events := ReachDoomed(steps, i);
    }
  }

  /** The await step is skipped by its condition, nobody decides anything, and the completion drops the
      wait that the submitting step had stored. */
  lemma SkippedAwaitIsDropped() returns (events: seq<Event>)
    ensures OrderlyRun(SUBMIT_AWAIT_PAY, events) && forall e <- events :: !e.Decide?
    ensures CompletionDrops(SUBMIT_AWAIT_PAY, After(SUBMIT_AWAIT_PAY, events).value)
  {
    events := AwaitIsSkipped();
  }
}
