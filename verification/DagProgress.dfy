/** What a DAG task keeps of its progress: when a step that a pause saved as completed can be called
    again. */
module DagProgress {
  import opened Pipelines
  import opened DagExecution
  import opened DagTask

  // ---------- the writes of the completed steps ----------

  /** An outcome of a node that makes the executor write back the execution the segment loaded. */
  predicate LosesProgress(step: Step, node: Node, o: Outcome)
  {
    if node.phase.Acting? then
      IsCall(step) && (o.call.StartNotJournaled? || (o.call.Invoked? && !o.call.completionJournaled))
    else
      && node.phase.Waiting? && node.phase.next >= |step.dependsOn| && !node.status.Success?
      && !StepShouldRun(step, o.cond) && step.humanGate == "" && !o.skipJournaled
  }

  /** A failed call of a registry tool, which is stored with whatever execution there is. */
  predicate FailsCall(step: Step, node: Node, o: Outcome)
  {
    node.phase.Acting? && IsToolCall(step) && o.call.Invoked? && !o.call.ok
  }

  /** The event stores the completed steps that the segment had loaded: a journal failure, or a
      failed call when the record was deleted. */
  ghost predicate WritesBack(g: Graph, t: Task, e: Event)
    requires Can(g, t, e)
  {
    && e.NodeMoves?
    && var step, node := g[e.node], t.segment.value.nodes[e.node];
       LosesProgress(step, node, e.outcome) || (t.store.None? && FailsCall(step, node, e.outcome))
  }

  /** The event stores the steps that have succeeded by now: a pause. */
  ghost predicate SavesProgress(g: Graph, t: Task, e: Event)
    requires Can(g, t, e)
  {
    && e.NodeMoves? && t.segment.value.nodes[e.node].phase.Acting? && IsGate(g[e.node])
    && !Passes(g[e.node], t.segment.value.gate, e.outcome) && !e.outcome.pause.PauseNotSaved?
  }

  /** The event deletes the record: a tool that is not configured, or a pause that cannot be saved. */
  ghost predicate Deletes(g: Graph, t: Task, e: Event)
    requires Can(g, t, e)
  {
    && e.NodeMoves? && t.segment.value.nodes[e.node].phase.Acting?
    && var step, o := g[e.node], e.outcome;
       || (IsToolCall(step) && o.call == NotConfigured)
       || (IsGate(step) && !(step.humanGate == t.segment.value.gate && !o.cleared) && o.pause == PauseNotSaved)
  }

  /** What every move leaves in the store, exactly. A journal failure clears the gate, a failed call keeps
      it, unless a journal failure elsewhere had cleared it before; a pause stores its own gate, unless
      the request was not journaled. */
  lemma MoveWrites(g: Graph, ids: seq<string>, t: Task, e: Event)
    requires Can(g, t, e) && e.NodeMoves?
    ensures var seg, t' := t.segment.value, Do(g, ids, t, e);
      var step, node, o := g[e.node], seg.nodes[e.node], e.outcome;
      && (LosesProgress(step, node, o) ==> t'.store == Some(Saved("", seg.pre, false)))
      && (!LosesProgress(step, node, o) && WritesBack(g, t, e) ==>
            t'.store == Some(Saved(if o.cleared then "" else seg.gate, seg.pre, false)))
      && (SavesProgress(g, t, e) ==>
            t'.store == Some(Saved(if o.pause == PauseSaved then step.humanGate else "",
                                   Succeeded(t'.segment.value.nodes), false)))
      && (Deletes(g, t, e) ==> t'.store == None)
      && (!WritesBack(g, t, e) && !SavesProgress(g, t, e) && !Deletes(g, t, e) ==> t'.store == t.store)
  {
  }

  // ---------- a saved step stays saved until it is forgotten ----------

  /** The step is completed wherever the task can go on from. */
  ghost predicate Held(t: Task, n: string)
  {
    && (t.store.Some? ==> n in t.store.value.completed)
    && (t.segment.Some? ==> n in Succeeded(t.segment.value.nodes))
  }

  /** The event replaces the stored steps by some that lack n. */
  ghost predicate Forgets(g: Graph, ids: seq<string>, t: Task, e: Event, n: string)
    requires Can(g, t, e)
  {
    || (WritesBack(g, t, e) && n !in t.segment.value.pre)
    || (e.Complete? && (t.store.None? || (ids != [] && n !in ids)))
  }

  lemma MoveKeepsSucceeded(g: Graph, ids: seq<string>, t: Task, e: Event, n: string)
    requires TaskInv(g, ids, t) && Can(g, t, e) && e.NodeMoves? && n in Succeeded(t.segment.value.nodes)
    ensures n in Succeeded(Do(g, ids, t, e).segment.value.nodes)
  {
    var seg := t.segment.value;
    SuccessStays(g, seg.pre, seg.gate, seg.nodes, e.node, e.outcome, n);
  }

  /** One event: a step that is held stays held if and only if the event does not forget it. */
  lemma HeldUnlessForgotten(g: Graph, ids: seq<string>, t: Task, e: Event, n: string)
    requires TaskInv(g, ids, t) && Can(g, t, e) && !e.Start? && n in g && Held(t, n)
    ensures Held(Do(g, ids, t, e), n) <==> !Forgets(g, ids, t, e, n)
  {
    if e.NodeMoves? {
      MoveWrites(g, ids, t, e);
      MoveKeepsSucceeded(g, ids, t, e, n);
    } else if e.Decide? && t.store.Some? {
      InitialSucceeded(g, t.store.value.completed);
    }
  }

  /** A step that is held is not called. */
  lemma HeldIsNotCalled(g: Graph, ids: seq<string>, t: Task, e: Event, n: string)
    requires TaskInv(g, ids, t) && Can(g, t, e) && n in g && Held(t, n)
    ensures t.log <= Do(g, ids, t, e).log && Call(n) !in Do(g, ids, t, e).log[|t.log|..]
  {
    if e.NodeMoves? {
      assert NodeInv(g, t.segment.value.pre, t.segment.value.nodes, e.node);
    }
  }

  // ---------- whole runs ----------

  /** Some event of the run forgets n. */
  ghost predicate SomeForgets(g: Graph, ids: seq<string>, t: Task, events: seq<Event>, n: string)
    decreases |events|
  {
    && events != [] && Can(g, t, events[0])
    && (Forgets(g, ids, t, events[0], n) || SomeForgets(g, ids, Do(g, ids, t, events[0]), events[1..], n))
  }

  /** Over whole runs, a saved step is called again only after an event that forgets it. */
  lemma {:induction false} CalledAgainOnlyIfForgotten(g: Graph, ids: seq<string>, t: Task, events: seq<Event>,
      t': Task, n: string)
    requires ListSettles(g, ids) && TaskInv(g, ids, t) && t.started && n in g && Held(t, n)
    requires Run(g, ids, t, events, t') && !SomeForgets(g, ids, t, events, n)
    ensures Held(t', n) && t.log <= t'.log && Call(n) !in t'.log[|t.log|..]
    decreases |events|
  {
    if events != [] {
      var next := Do(g, ids, t, events[0]);
      HeldUnlessForgotten(g, ids, t, events[0], n);
      HeldIsNotCalled(g, ids, t, events[0], n);
      EventKeepsTaskInv(g, ids, t, events[0]);
      CalledAgainOnlyIfForgotten(g, ids, next, events[1..], t', n);
      NotInEither(t.log, next.log, t'.log, Call(n));
    }
  }

  lemma NotInEither(a: seq<Entry>, b: seq<Entry>, c: seq<Entry>, e: Entry)
    requires a <= b && b <= c && e !in b[|a|..] && e !in c[|b|..]
    ensures a <= c && e !in c[|a|..]
  {
    assert c[|a|..] == b[|a|..] + c[|b|..];
  }

  /** Whether the last write of the stored steps, since n was saved, was one that lacks n. */
  ghost predicate Lost(g: Graph, ids: seq<string>, t: Task, events: seq<Event>, n: string, lost: bool)
    decreases |events|
  {
    if events == [] || !Can(g, t, events[0]) then lost
    else
      var e := events[0];
      Lost(g, ids, Do(g, ids, t, e), events[1..], n, LostAfter(g, ids, t, e, n, lost))
  }

  ghost predicate LostAfter(g: Graph, ids: seq<string>, t: Task, e: Event, n: string, lost: bool)
    requires Can(g, t, e)
  {
    if WritesBack(g, t, e) then n !in t.segment.value.pre
    else if SavesProgress(g, t, e) then false
    else if e.Complete? then (if t.store.None? then true else if ids == [] then lost else n !in ids)
    else lost
  }

  /** No event of the run begins a segment. */
  predicate OneSegment(events: seq<Event>)
  {
    forall e <- events :: !e.Start? && e != Decide(true)
  }

  /** Within a segment and until the next one, the store lacks a step that has succeeded exactly
      when the last write lacked it. */
  lemma {:induction false} StoreLacksExactlyTheLost(g: Graph, ids: seq<string>, t: Task, events: seq<Event>,
      t': Task, n: string, lost: bool)
    requires ListSettles(g, ids) && TaskInv(g, ids, t) && n in g && Run(g, ids, t, events, t') && OneSegment(events)
    requires t.segment.Some? ==> n in Succeeded(t.segment.value.nodes)
    requires t.store.Some? ==> (n !in t.store.value.completed <==> lost)
    ensures t'.store.Some? ==> (n !in t'.store.value.completed <==> Lost(g, ids, t, events, n, lost))
    decreases |events|
  {
    if events != [] {
      var e := events[0];
      var next := Do(g, ids, t, e);
      assert forall x <- events[1..] :: x in events;
      if e.NodeMoves? {
        MoveWrites(g, ids, t, e);
        MoveKeepsSucceeded(g, ids, t, e, n);
      }
      EventKeepsTaskInv(g, ids, t, e);
      StoreLacksExactlyTheLost(g, ids, next, events[1..], t', n, LostAfter(g, ids, t, e, n, lost));
    }
  }

  lemma {:induction false} GoodRunsForgetNothing(g: Graph, ids: seq<string>, t: Task, events: seq<Event>, t': Task,
      n: string)
    requires GoesWell(events) && Run(g, ids, t, events, t')
    ensures !SomeForgets(g, ids, t, events, n)
    decreases |events|
  {
    if events != [] {
      assert forall x <- events[1..] :: x in events;
      assert events[0] in events;
      GoodRunsForgetNothing(g, ids, Do(g, ids, t, events[0]), events[1..], t', n);
    }
  }

  /** Resumed from a store that lacks the step, a run that goes well can call it. */
  lemma LackedIsCalled(g: Graph, rank: Ranks, ids: seq<string>, t: Task, n: string)
      returns (events: seq<Event>, t': Task)
    requires Acyclic(g, rank) && n in g && IsCall(g[n]) && t.started && Can(g, t, Decide(true))
    requires t.store.Some? && !t.store.value.twice && n !in t.store.value.completed
    ensures GoesWell(events) && Run(g, ids, Do(g, ids, t, Decide(true)), events, t')
    ensures var next := Do(g, ids, t, Decide(true)); next.log <= t'.log && Call(n) in t'.log[|next.log|..]
  {
    var next := Do(g, ids, t, Decide(true));
    InitialSucceeded(g, t.store.value.completed);
    var S := set x | x in g && rank[x] <= rank[n];
    assert Calm(g, next) && n in S;
    events, t' := BringRegion(g, rank, ids, next, S);
  }

  /** Can a run that goes well, from the resumption at t on, call n? */
  ghost predicate CanBeCalledAgain(g: Graph, ids: seq<string>, t: Task, n: string)
    requires Can(g, t, Decide(true))
  {
    var next := Do(g, ids, t, Decide(true));
    exists events, t' :: GoesWell(events) && Run(g, ids, next, events, t')
      && next.log <= t'.log && Call(n) in t'.log[|next.log|..]
  }

  /** A step that a pause saved as completed can be called again, in a run that goes well from the
      resumption on, if and only if the last write of the stored steps between that pause and the
      resumption lacked it: one that wrote back what the segment had loaded, or a completion. */
  lemma SavedStepIsCalledAgainExactly(g: Graph, rank: Ranks, ids: seq<string>, t0: Task, events: seq<Event>, t: Task,
      n: string)
    requires Acyclic(g, rank) && ListSettles(g, ids) && n in g && IsCall(g[n])
    requires TaskInv(g, ids, t0) && t0.started && t0.segment.Some? && t0.store.Some? && Held(t0, n)
    requires Run(g, ids, t0, events, t) && OneSegment(events)
    requires Can(g, t, Decide(true)) && t.store.Some? && !t.store.value.twice
    ensures CanBeCalledAgain(g, ids, t, n) <==> Lost(g, ids, t0, events, n, false)
  {
    StoreLacksExactlyTheLost(g, ids, t0, events, t, n, false);
    RunKeepsTaskInv(g, ids, t0, events, t);
    if n !in t.store.value.completed {
      var more, t' := LackedIsCalled(g, rank, ids, t, n);
    } else {
      var next := Do(g, ids, t, Decide(true));
      HeldUnlessForgotten(g, ids, t, Decide(true), n);
      EventKeepsTaskInv(g, ids, t, Decide(true));
      forall more, t' | GoesWell(more) && Run(g, ids, next, more, t')
        ensures Call(n) !in (if next.log <= t'.log then t'.log[|next.log|..] else [])
      {
        GoodRunsForgetNothing(g, ids, next, more, t', n);
        CalledAgainOnlyIfForgotten(g, ids, next, more, t', n);
      }
    }
  }

  // ---------- a run that calls a saved step again ----------

  const THREE: Graph := map[
    "a" := BLANK.(id := "a", tool := "a"),
    "gate" := BLANK.(id := "gate", humanGate := "manager"),
    "b" := BLANK.(id := "b", tool := "b")]

  /** "a" has been called, and the gate has paused the task and saved it. */
  lemma CalledAndPaused(ids: seq<string>) returns (events: seq<Event>, t: Task)
    ensures Reached(THREE, ids, events, t) && t.started && t.log == [Call("a")] && t.queued == 0
    ensures t.store == Some(Saved("manager", {"a"}, false)) && t.segment.Some?
    ensures var nodes := t.segment.value.nodes;
      && t.segment.value.pre == {} && nodes.Keys == THREE.Keys
      && nodes["a"] == Node(Success, Returned, 1) && nodes["gate"] == Node(Paused, Closing, 0)
      && nodes["b"] == Node(Pending, Waiting(0), 0)
  {
    var t0 := StartIsCalm(THREE, ids);
    events := Act(THREE, ids, t0, "a");
    var t1 := Acted(THREE, t0, "a");
    RunsJoin(THREE, ids, FRESH, [Start], t0, events, t1);
    events := [Start] + events;
    t := PausedAt(THREE, t1, "gate");
    var more := PauseAtGate(THREE, ids, t1, "gate");
    RunsJoin(THREE, ids, FRESH, events, t1, more, t);
    events := events + more;
    assert Succeeded(t.segment.value.nodes) == {"a"};
  }

  /** The journal fails another step's start while a decision is queued: what had been loaded is
      written back, the decision resumes the task from it, and the saved step is called again. */
  lemma SavedStepIsCalledAgain(ids: seq<string>) returns (before: seq<Event>, t0: Task, after: seq<Event>, t: Task)
    ensures Reached(THREE, ids, before, t0) && t0.store == Some(Saved("manager", {"a"}, false))
    ensures Run(THREE, ids, t0, after, t) && t.log == [Call("a")] + [Approval("")] + [Call("a")]
  {
    before, t0 := CalledAndPaused(ids);
    var lost;
    after, lost := ProgressIsLost(ids, t0);
    RunOneMore(THREE, ids, t0, after, lost, Decide(true));
    after := after + [Decide(true)];
    var t1 := Do(THREE, ids, lost, Decide(true));
    var more := Act(THREE, ids, t1, "a");
    t := Acted(THREE, t1, "a");
    RunsJoin(THREE, ids, t0, after, t1, more, t);
    after := after + more;
  }

  lemma ProgressIsLost(ids: seq<string>, t: Task) returns (events: seq<Event>, t': Task)
    requires t.started && t.segment.Some? && t.store == Some(Saved("manager", {"a"}, false)) && t.queued == 0
    requires var nodes := t.segment.value.nodes;
      && t.segment.value.pre == {} && nodes.Keys == THREE.Keys
      && nodes["a"] == Node(Success, Returned, 1) && nodes["gate"] == Node(Paused, Closing, 0)
      && nodes["b"] == Node(Pending, Waiting(0), 0)
    ensures Run(THREE, ids, t, events, t') && t'.started && t'.segment.None? && t'.queued == 1 && t'.log == t.log
    ensures t'.store == Some(Saved("", {}, false))
  {
    var fail := NodeMoves("b", GOOD.(call := StartNotJournaled));
    events, t' := Then(ids, t, [], t, PostDecision);
    events, t' := Then(ids, t, events, t', NodeMoves("b", GOOD));
    events, t' := Then(ids, t, events, t', fail);
    events, t' := EndSegment(ids, t, events, t');
  }

  lemma EndSegment(ids: seq<string>, t: Task, events: seq<Event>, now: Task) returns (more: seq<Event>, t': Task)
    requires Run(THREE, ids, t, events, now) && now.segment.Some? && now.started
    requires var nodes := now.segment.value.nodes;
      && nodes.Keys == THREE.Keys && nodes["a"].phase == Returned && nodes["gate"] == Node(Paused, Closing, 0)
      && nodes["b"].phase == Closing
    ensures Run(THREE, ids, t, more, t') && t'.started && t'.segment.None? && t'.queued == now.queued
    ensures t'.log == now.log && t'.store == now.store
  {
    more, t' := Then(ids, t, events, now, NodeMoves("b", GOOD));
    more, t' := Then(ids, t, more, t', NodeMoves("gate", GOOD));
    more, t' := Then(ids, t, more, t', SegmentEnds);
  }

  lemma Then(ids: seq<string>, t: Task, events: seq<Event>, now: Task, e: Event) returns (more: seq<Event>, next: Task)
    requires Run(THREE, ids, t, events, now) && Can(THREE, now, e)
    ensures Run(THREE, ids, t, more, next) && next == Do(THREE, ids, now, e)
  {
    RunOneMore(THREE, ids, t, events, now, e);
    more, next := events + [e], Do(THREE, ids, now, e);
  }
}
