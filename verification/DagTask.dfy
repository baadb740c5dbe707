/** A DAG task over its whole life: segments that pause at human gates, decisions taken while the
    task is stored, resumptions, the analyst's completion, and crashes. The verifier is one
    goroutine, so that a decision is only processed between segments; people decide through the
    API, and the analyst writes, whenever they like. */
module DagTask {
  import opened Pipelines
  import opened PipelineSafety
  import opened DagExecution

  /** The stored execution: the gate it stopped at and the steps completed by then. twice: the
      stored list names a step twice, on which a resumption panics. */
  datatype Saved = Saved(gate: string, completed: set<string>, twice: bool)

  /** A running segment, with the gate and completed steps it loaded. */
  datatype Segment = Segment(gate: string, pre: set<string>, nodes: Nodes)

  /** Approval(gate): an approval processed while the stored task was stopped at gate.
      Call(node): the tool or agent of a node was invoked. */
  datatype Entry = Approval(gate: string) | Call(node: string)

  /** queued: decisions on their way to the verifier; told: messages on their way to the analyst. */
  datatype Task = Task(
    started: bool,
    store: Option<Saved>,
    segment: Option<Segment>,
    log: seq<Entry>,
    queued: nat,
    told: nat)

  const FRESH := Task(false, None, None, [], 0, 0)

  datatype Event =
    | Start
    | NodeMoves(node: string, outcome: Outcome)
    | SegmentEnds
    | Crash
    | PostDecision
    | Decide(approved: bool)
    | Complete

  /** failAuditExecution with the execution the segment loaded: no gate, its completed steps. */
  function JournalFailed(pre: set<string>): Option<Saved>
  {
    Some(Saved("", pre, false))
  }

  /** What the store holds after a node acted; s' are the statuses it leaves. */
  function StoreAfterAct(step: Step, seg: Segment, s': Nodes, o: Outcome, store: Option<Saved>): (r: Option<Saved>)
    ensures r.None? || r == store || r.value.completed == seg.pre || r.value.completed == Succeeded(s')
  {
    if step.agent != "" then
      match o.call
      case NotConfigured => store
      case StartNotJournaled => JournalFailed(seg.pre)
      case Invoked(_, journaled) => if journaled then store else JournalFailed(seg.pre)
    else if step.humanGate != "" then
      if Passes(step, seg.gate, o) then store
      else match o.pause
        case PauseSaved => Some(Saved(step.humanGate, Succeeded(s'), false))
        case PauseNotSaved => None
        case RequestNotJournaled => Some(Saved("", Succeeded(s'), false))
    else if step.analyst || step.tool == SAVE_PREFERENCE then store
    else
      match o.call
      case NotConfigured => None
      case StartNotJournaled => JournalFailed(seg.pre)
      case Invoked(ok, journaled) =>
        var st := if journaled then store else JournalFailed(seg.pre);
        if ok || st.Some? then st else Some(Saved(if o.cleared then "" else seg.gate, seg.pre, false))
  }

  function StoreAfter(step: Step, seg: Segment, n: string, s': Nodes, o: Outcome,
      store: Option<Saved>): (r: Option<Saved>)
    requires n in seg.nodes
    ensures r.None? || r == store || r.value.completed == seg.pre || r.value.completed == Succeeded(s')
  {
    var node := seg.nodes[n];
    if node.phase.Acting? then StoreAfterAct(step, seg, s', o, store)
    else if node.phase.Waiting? && node.phase.next >= |step.dependsOn| && !node.status.Success?
            && !StepShouldRun(step, o.cond) && step.humanGate == "" && !o.skipJournaled then JournalFailed(seg.pre)
    else store
  }

  /** Does this step of node n invoke a tool or an agent? */
  predicate Calls(step: Step, node: Node, o: Outcome)
  {
    node.phase.Acting? && (step.agent != "" || IsToolCall(step)) && o.call.Invoked?
  }

  /** An analyst step asks the analyst for a summary, and so for the completion. */
  predicate IsTelling(step: Step)
  {
    step.agent == "" && step.humanGate == "" && step.analyst
  }

  predicate Tells(step: Step, node: Node)
  {
    node.phase.Acting? && IsTelling(step)
  }

  /** After the goroutines have returned, the analyst is told unless something failed or paused. */
  predicate EndsComplete(s: Nodes)
  {
    forall n <- s :: !s[n].status.Failed? && !s[n].status.Paused? && !s[n].status.CascadedPause?
  }

  function AsSet(ids: seq<string>): set<string>
  {
    set id | id in ids
  }

  /** persistCompletion: the gate is cleared, and the listed steps count as completed; an execution
      that has to be created anew has no snapshot to list them from. */
  ghost function Completed(g: Graph, ids: seq<string>, store: Option<Saved>): Saved
  {
    if store.None? then Saved("", {}, false)
    else if ids == [] then store.value.(gate := "")
    else Saved("", AsSet(ids), NamesTwice(g, ids))
  }

  predicate Can(g: Graph, t: Task, e: Event)
  {
    match e
    case Start => !t.started
    case NodeMoves(n, _) => t.segment.Some? && Enabled(g, t.segment.value.nodes, n)
    case SegmentEnds => t.segment.Some? && AllReturned(t.segment.value.nodes)
    case Crash => true
    case PostDecision => t.store.Some? && t.store.value.gate != ""
    case Decide(_) => t.started && t.segment.None? && t.queued > 0
    case Complete => t.told > 0
  }

  /** A resumption from what is stored; a list that names a step twice makes it panic, and the
      verifier recovers and goes on with its next message. */
  function Resumed(g: Graph, t: Task, st: Saved): Task
  {
    if st.twice then t
    else t.(segment := Some(Segment(st.gate, st.completed, InitialNodes(g, st.completed))))
  }

  /** One event of the task of graph g, whose completion lists ids. */
  ghost function Do(g: Graph, ids: seq<string>, t: Task, e: Event): Task
    requires Can(g, t, e)
  {
    match e
    case Start => t.(started := true, store := Some(Saved("", {}, false)),
        segment := Some(Segment("", {}, InitialNodes(g, {}))))
    case NodeMoves(n, o) =>
      var seg := t.segment.value;
      var s' := NodeStep(g, seg.gate, seg.nodes, n, o);
      t.(segment := Some(seg.(nodes := s')),
         store := StoreAfter(g[n], seg, n, s', o, t.store),
         log := if Calls(g[n], seg.nodes[n], o) then t.log + [Call(n)] else t.log,
         told := if Tells(g[n], seg.nodes[n]) then t.told + 1 else t.told)
    case SegmentEnds =>
      t.(segment := None, told := if EndsComplete(t.segment.value.nodes) then t.told + 1 else t.told)
    case Crash => t.(segment := None, queued := 0, told := 0)
    case PostDecision => t.(queued := t.queued + 1)
    case Decide(approved) =>
      if t.store.None? then t.(queued := t.queued - 1)
      else
        var st := t.store.value;
        if approved then Resumed(g, t.(queued := t.queued - 1, log := t.log + [Approval(st.gate)]), st)
        else t.(queued := t.queued - 1, store := Some(st.(gate := "")))
    case Complete => t.(told := t.told - 1, store := Some(Completed(g, ids, t.store)))
  }

  /** t' is reached from t by the events, one after the other. */
  ghost predicate Run(g: Graph, ids: seq<string>, t: Task, events: seq<Event>, t': Task)
    decreases |events|
  {
    if events == [] then t' == t
    else Can(g, t, events[0]) && Run(g, ids, Do(g, ids, t, events[0]), events[1..], t')
  }

  /** t is reached by a whole run of a task from its start. */
  ghost predicate Reached(g: Graph, ids: seq<string>, events: seq<Event>, t: Task)
  {
    Run(g, ids, FRESH, events, t)
  }

  lemma {:induction false} RunsJoin(g: Graph, ids: seq<string>, t0: Task, a: seq<Event>, t1: Task, b: seq<Event>,
      t2: Task)
    requires Run(g, ids, t0, a, t1) && Run(g, ids, t1, b, t2)
    ensures Run(g, ids, t0, a + b, t2)
    decreases |a|
  {
    if a == [] {
      assert a + b == b;
    } else {
      RunsJoin(g, ids, Do(g, ids, t0, a[0]), a[1..], t1, b, t2);
      assert (a + b)[1..] == a[1..] + b;
    }
  }

  /** One event before a run. */
  lemma RunFirst(g: Graph, ids: seq<string>, t: Task, e: Event, events: seq<Event>, t': Task)
    requires Can(g, t, e) && Run(g, ids, Do(g, ids, t, e), events, t')
    ensures Run(g, ids, t, [e] + events, t')
  {
    assert ([e] + events)[1..] == events;
  }

  /** One more event at the end of a run. */
  lemma RunOneMore(g: Graph, ids: seq<string>, t0: Task, events: seq<Event>, t: Task, e: Event)
    requires Run(g, ids, t0, events, t) && Can(g, t, e)
    ensures Run(g, ids, t0, events + [e], Do(g, ids, t, e))
  {
    assert [e][1..] == [];
    RunsJoin(g, ids, t0, events, t, [e], Do(g, ids, t, e));
  }

  // ---------- what every run keeps ----------

  ghost predicate GateAncestor(g: Graph, n: string, a: string)
    requires n in g
  {
    Ancestor(g, g[n].dependsOn, a) && a in g && IsGate(g[a])
  }

  /** The steps that the completion does not list. */
  function Rest(g: Graph, ids: seq<string>): Graph
  {
    g - AsSet(ids)
  }

  /** Every gate that n descends from was approved. */
  ghost predicate AllApproved(g: Graph, log: seq<Entry>, n: string)
    requires n in g
  {
    forall a | GateAncestor(g, n, a) :: Approval(g[a].humanGate) in log
  }

  /** Node n may be called: all gates it descends from were approved; or the completion does not list
      it, and all those were approved from which it descends through steps that are not listed. */
  ghost predicate MayCall(g: Graph, ids: seq<string>, log: seq<Entry>, n: string)
    requires n in g
  {
    AllApproved(g, log, n) || (n !in ids && AllApproved(Rest(g, ids), log, n))
  }

  ghost predicate CallsApproved(g: Graph, ids: seq<string>, log: seq<Entry>)
  {
    forall i | 0 <= i < |log| && log[i].Call? :: log[i].node in g && MayCall(g, ids, log[..i], log[i].node)
  }

  ghost predicate GatesApproved(g: Graph, log: seq<Entry>, done: set<string>)
  {
    forall n | n in done && n in g && IsGate(g[n]) :: Approval(g[n].humanGate) in log
  }

  /** Completed steps, as the executor leaves them: every gate among them was approved. */
  ghost predicate Earned(g: Graph, log: seq<Entry>, done: set<string>)
  {
    Settles(g, done) && GatesApproved(g, log, done)
  }

  /** Completed steps that come from a completion: the listed ones, and others that were earned. */
  ghost predicate Listed(g: Graph, ids: seq<string>, log: seq<Entry>, done: set<string>)
  {
    && Settles(g, done)
    && (forall id | id in ids && id in g :: id in done)
    && GatesApproved(Rest(g, ids), log, done)
  }

  ghost predicate Sound(g: Graph, ids: seq<string>, log: seq<Entry>, done: set<string>)
  {
    Earned(g, log, done) || Listed(g, ids, log, done)
  }

  ghost predicate SegmentInv(g: Graph, ids: seq<string>, t: Task, seg: Segment)
  {
    && Inv(g, seg.pre, seg.nodes)
    && Sound(g, ids, t.log, seg.pre)
    && (Earned(g, t.log, seg.pre) ==> Earned(g, t.log, Succeeded(seg.nodes)))
    && (Listed(g, ids, t.log, seg.pre) ==> Listed(g, ids, t.log, Succeeded(seg.nodes)))
    && (seg.gate != "" ==> Approval(seg.gate) in t.log)
  }

  ghost predicate TaskInv(g: Graph, ids: seq<string>, t: Task)
  {
    && CallsApproved(g, ids, t.log)
    && (t.store.Some? ==> t.store.value.twice || Sound(g, ids, t.log, t.store.value.completed))
    && (t.segment.Some? ==> SegmentInv(g, ids, t, t.segment.value))
  }

  /** A node acts only when all the gates above it have succeeded. */
  lemma ActingPastGates(g: Graph, pre: set<string>, s: Nodes, n: string)
    requires Inv(g, pre, s) && n in g && s[n].phase.Acting?
    ensures forall a | GateAncestor(g, n, a) :: a in Succeeded(s)
  {
    assert NodeInv(g, pre, s, n);
    forall a | GateAncestor(g, n, a)
      ensures a in Succeeded(s)
    {
      var path :| EndsAt(g, g[n].dependsOn, path, a);
      if |path| > 1 {
        ChainTail(g, g[n].dependsOn, path);
        SucceededChain(g, pre, s, path[0], path[1..]);
      }
    }
  }

  lemma ActingMayCall(g: Graph, ids: seq<string>, t: Task, n: string)
    requires t.segment.Some? && SegmentInv(g, ids, t, t.segment.value)
    requires n in g && t.segment.value.nodes[n].phase.Acting?
    ensures MayCall(g, ids, t.log, n)
  {
    var seg := t.segment.value;
    ActingPastGates(g, seg.pre, seg.nodes, n);
    if !Earned(g, t.log, seg.pre) {
      forall a | n !in ids && GateAncestor(Rest(g, ids), n, a)
        ensures Approval(g[a].humanGate) in t.log
      {
        var path :| EndsAt(Rest(g, ids), g[n].dependsOn, path, a);
        assert EndsAt(g, g[n].dependsOn, path, a);
        assert GateAncestor(g, n, a);
      }
    }
  }

  lemma CallsApprovedGrows(g: Graph, ids: seq<string>, log: seq<Entry>, e: Entry)
    requires CallsApproved(g, ids, log)
    requires e.Call? ==> e.node in g && MayCall(g, ids, log, e.node)
    ensures CallsApproved(g, ids, log + [e])
  {
    var more := log + [e];
    forall i | 0 <= i < |more| && more[i].Call?
      ensures more[i].node in g && MayCall(g, ids, more[..i], more[i].node)
    {
      assert more[..i] == if i < |log| then log[..i] else log;
    }
  }

  lemma SoundGrows(g: Graph, ids: seq<string>, log: seq<Entry>, e: Entry, done: set<string>)
    ensures Earned(g, log, done) ==> Earned(g, log + [e], done)
    ensures Listed(g, ids, log, done) ==> Listed(g, ids, log + [e], done)
  {
  }

  /** Only a gate that was passed succeeds anew, and a passed gate was approved. */
  lemma MoveKeepsSound(g: Graph, ids: seq<string>, t: Task, n: string, o: Outcome)
    requires TaskInv(g, ids, t) && Can(g, t, NodeMoves(n, o))
    ensures var seg := t.segment.value;
      var done' := Succeeded(NodeStep(g, seg.gate, seg.nodes, n, o));
      && Settles(g, done') && Succeeded(seg.nodes) <= done'
      && (Earned(g, t.log, seg.pre) ==> Earned(g, t.log, done'))
      && (Listed(g, ids, t.log, seg.pre) ==> Listed(g, ids, t.log, done'))
  {
    var seg := t.segment.value;
    var s' := NodeStep(g, seg.gate, seg.nodes, n, o);
    StepKeepsInv(g, seg.pre, seg.gate, seg.nodes, n, o);
    SavedSetSettles(g, seg.pre, s');
    forall m | m in Succeeded(seg.nodes)
      ensures m in Succeeded(s')
    {
      SuccessStays(g, seg.pre, seg.gate, seg.nodes, n, o, m);
    }
    forall m | m in Succeeded(s') && m in g && IsGate(g[m])
      ensures m in Succeeded(seg.nodes) || Approval(g[m].humanGate) in t.log
    {
      assert NodeInv(g, seg.pre, seg.nodes, m);
    }
  }

  lemma MoveKeepsStore(g: Graph, ids: seq<string>, t: Task, n: string, o: Outcome)
    requires TaskInv(g, ids, t) && Can(g, t, NodeMoves(n, o))
    ensures var t' := Do(g, ids, t, NodeMoves(n, o));
      t'.store.Some? ==> t'.store.value.twice || Sound(g, ids, t.log, t'.store.value.completed)
  {
    MoveKeepsSound(g, ids, t, n, o);
  }

  lemma MoveKeepsCalls(g: Graph, ids: seq<string>, t: Task, n: string, o: Outcome)
    requires TaskInv(g, ids, t) && Can(g, t, NodeMoves(n, o))
    ensures CallsApproved(g, ids, Do(g, ids, t, NodeMoves(n, o)).log)
  {
    if Calls(g[n], t.segment.value.nodes[n], o) {
      ActingMayCall(g, ids, t, n);
      CallsApprovedGrows(g, ids, t.log, Call(n));
    }
  }

  lemma MoveKeepsTaskInv(g: Graph, ids: seq<string>, t: Task, n: string, o: Outcome)
    requires TaskInv(g, ids, t) && Can(g, t, NodeMoves(n, o))
    ensures TaskInv(g, ids, Do(g, ids, t, NodeMoves(n, o)))
  {
    var seg, t' := t.segment.value, Do(g, ids, t, NodeMoves(n, o));
    StepKeepsInv(g, seg.pre, seg.gate, seg.nodes, n, o);
    MoveKeepsSound(g, ids, t, n, o);
    MoveKeepsStore(g, ids, t, n, o);
    MoveKeepsCalls(g, ids, t, n, o);
    LoggedCallKeeps(g, ids, t.log, n, seg.pre);
    LoggedCallKeeps(g, ids, t.log, n, Succeeded(t'.segment.value.nodes));
    if t'.store.Some? {
      LoggedCallKeeps(g, ids, t.log, n, t'.store.value.completed);
    }
  }

  /** A call in the log approves nothing. */
  lemma LoggedCallKeeps(g: Graph, ids: seq<string>, log: seq<Entry>, n: string, done: set<string>)
    ensures Earned(g, log + [Call(n)], done) <==> Earned(g, log, done)
    ensures Listed(g, ids, log + [Call(n)], done) <==> Listed(g, ids, log, done)
  {
  }

  /** Whatever the steps that the completion lists descend from is listed, too, or cannot fail; or a
      resumption from the list ends at once. */
  ghost predicate ListSettles(g: Graph, ids: seq<string>)
  {
    Settles(g, AsSet(ids)) || NamesTwice(g, ids)
  }

  lemma EventKeepsTaskInv(g: Graph, ids: seq<string>, t: Task, e: Event)
    requires ListSettles(g, ids) && TaskInv(g, ids, t) && Can(g, t, e)
    ensures TaskInv(g, ids, Do(g, ids, t, e))
  {
    match e
    case Start =>
      ClosedSettles(g, {});
      InitialInv(g, {});
    case NodeMoves(n, o) =>
      MoveKeepsTaskInv(g, ids, t, n, o);
    case Decide(approved) =>
      DecisionKeepsTaskInv(g, ids, t, approved);
    case Complete =>
      assert Settles(g, AsSet(ids)) ==> Listed(g, ids, t.log, AsSet(ids));
    case _ =>
  }

  lemma DecisionKeepsTaskInv(g: Graph, ids: seq<string>, t: Task, approved: bool)
    requires TaskInv(g, ids, t) && Can(g, t, Decide(approved))
    ensures TaskInv(g, ids, Do(g, ids, t, Decide(approved)))
  {
    if t.store.Some? && approved {
      var st := t.store.value;
      CallsApprovedGrows(g, ids, t.log, Approval(st.gate));
      SoundGrows(g, ids, t.log, Approval(st.gate), st.completed);
      if !st.twice {
        InitialInv(g, st.completed);
        InitialSucceeded(g, st.completed);
      }
    }
  }

  /** A segment starts with exactly the known steps of the list succeeded. */
  lemma InitialSucceeded(g: Graph, completed: set<string>)
    ensures forall n :: n in Succeeded(InitialNodes(g, completed)) <==> n in completed && n in g
  {
  }

  lemma {:induction false} RunKeepsTaskInv(g: Graph, ids: seq<string>, t: Task, events: seq<Event>, t': Task)
    requires ListSettles(g, ids) && TaskInv(g, ids, t) && Run(g, ids, t, events, t')
    ensures TaskInv(g, ids, t')
    decreases |events|
  {
    if events != [] {
      EventKeepsTaskInv(g, ids, t, events[0]);
      RunKeepsTaskInv(g, ids, Do(g, ids, t, events[0]), events[1..], t');
    }
  }

  /** In every run, a node is called only after the gates it descends from were approved while the
      task was stored at them, a gate skipped by its condition letting nothing through: all of them
      if the completion lists the node, and else at least those past the listed steps. */
  lemma EveryCallIsApproved(g: Graph, ids: seq<string>, events: seq<Event>, t: Task)
    requires ListSettles(g, ids) && Reached(g, ids, events, t)
    ensures CallsApproved(g, ids, t.log)
  {
    RunKeepsTaskInv(g, ids, FRESH, events, t);
  }

  // ---------- what a decision does ----------

  /** An approval resumes the task from exactly what is stored, at the gate that is stored; a rejection
      starts nothing, clears the gate, and keeps the completed steps. Either uses up one decision. */
  lemma DecisionExactly(g: Graph, ids: seq<string>, t: Task, approved: bool)
    requires Can(g, t, Decide(approved))
    ensures var t' := Do(g, ids, t, Decide(approved));
      && t'.queued == t.queued - 1 && t'.told == t.told && t'.started == t.started
      && (t.store.None? ==> t'.store.None? && t'.segment.None? && t'.log == t.log)
      && (t.store.Some? && !approved ==>
            t'.segment.None? && t'.log == t.log
            && t'.store == Some(Saved("", t.store.value.completed, t.store.value.twice)))
      && (t.store.Some? && approved ==>
            var st := t.store.value;
            && t'.store == t.store && t'.log == t.log + [Approval(st.gate)]
            && (if st.twice then t'.segment.None?
                else t'.segment == Some(Segment(st.gate, st.completed,
                  map n | n in g :: if n in st.completed then Node(Success, Waiting(0), 1)
                                    else Node(Pending, Waiting(0), 0)))))
  {
  }

  /** The analyst's completion clears the stored gate and puts the listed steps, if there are any, in the
      place of the completed ones; a record that has to be created anew lists none. */
  lemma CompletionExactly(g: Graph, ids: seq<string>, t: Task)
    requires Can(g, t, Complete)
    ensures var t' := Do(g, ids, t, Complete);
      && t'.segment == t.segment && t'.log == t.log && t'.queued == t.queued && t'.told == t.told - 1
      && t'.store.Some? && t'.store.value.gate == ""
      && var done := t'.store.value.completed;
         if t.store.None? then done == {} && !t'.store.value.twice
         else if ids == [] then done == t.store.value.completed && t'.store.value.twice == t.store.value.twice
         else && (forall id :: id in done <==> id in ids)
              && (t'.store.value.twice <==>
                    exists i, j :: 0 <= i < j < |ids| && ids[i] == ids[j] && ids[i] in g)
  {
    assert forall id :: id in AsSet(ids) <==> id in ids;
  }

  /** A crash takes the running segment and whatever was on its way, decisions included, and leaves what
      is stored: then nothing but another decision can go on with the task. */
  lemma CrashExactly(g: Graph, ids: seq<string>, t: Task, approved: bool)
    ensures var t' := Do(g, ids, t, Crash);
      && t'.store == t.store && t'.log == t.log && t'.segment.None?
      && !Can(g, t', Decide(approved)) && !Can(g, t', Complete)
      && (Can(g, t', PostDecision) <==> t.store.Some? && t.store.value.gate != "")
  {
  }

  /** Nothing but an approved decision, taken while the task was stored at a gate, approves the gate. */
  lemma {:induction false} ApprovalWasDecided(g: Graph, ids: seq<string>, t: Task, events: seq<Event>, t': Task,
      gate: string) returns (before: seq<Event>, at: Task, after: seq<Event>)
    requires Run(g, ids, t, events, t') && Approval(gate) !in t.log && Approval(gate) in t'.log
    ensures events == before + [Decide(true)] + after && Run(g, ids, t, before, at)
    ensures Can(g, at, Decide(true)) && at.store.Some? && at.store.value.gate == gate && at.segment.None?
    decreases |events|
  {
    var next := Do(g, ids, t, events[0]);
    if Approval(gate) in next.log {
      before, at, after := [], t, events[1..];
      assert events[0] == Decide(true);
    } else {
      before, at, after := ApprovalWasDecided(g, ids, next, events[1..], t', gate);
      RunFirst(g, ids, t, events[0], before, at);
      before := [events[0]] + before;
      assert events == [events[0]] + events[1..];
    }
  }

  // ---------- the static check is sound for the executor ----------

  /** In a DAG an agent step never reaches its human gate. */
  ghost predicate NoAgentGates(steps: seq<Step>)
  {
    forall s <- steps | s.humanGate != "" :: s.agent == ""
  }

  /** Node n was called only after an approval of some gate it descends from. */
  ghost predicate ApprovedWhenCalled(g: Graph, log: seq<Entry>, n: string)
    requires n in g
  {
    forall i | 0 <= i < |log| && log[i] == Call(n) ::
      exists a :: GateAncestor(g, n, a) && Approval(g[a].humanGate) in log[..i]
  }

  /** No completion stands between node n and all the gates it descends from: it is listed itself,
      or descends from some gate through steps that are not listed. */
  ghost predicate GatedPastCompletion(g: Graph, ids: seq<string>, n: string)
    requires n in g
  {
    n in ids || exists a :: GateAncestor(Rest(g, ids), n, a)
  }

  lemma RestGateIsGate(g: Graph, ids: seq<string>, n: string, a: string)
    requires n in g && n !in ids && GateAncestor(Rest(g, ids), n, a)
    ensures GateAncestor(g, n, a)
  {
    var path :| EndsAt(Rest(g, ids), g[n].dependsOn, path, a);
    assert EndsAt(g, g[n].dependsOn, path, a);
  }

  lemma GatedIsApproved(g: Graph, ids: seq<string>, events: seq<Event>, t: Task, n: string)
    requires ListSettles(g, ids) && Reached(g, ids, events, t)
    requires n in g && (exists a :: GateAncestor(g, n, a)) && GatedPastCompletion(g, ids, n)
    ensures ApprovedWhenCalled(g, t.log, n)
  {
    EveryCallIsApproved(g, ids, events, t);
    forall i | 0 <= i < |t.log| && t.log[i] == Call(n)
      ensures exists a :: GateAncestor(g, n, a) && Approval(g[a].humanGate) in t.log[..i]
    {
      if AllApproved(g, t.log[..i], n) {
        var a :| GateAncestor(g, n, a);
      } else {
        var a :| GateAncestor(Rest(g, ids), n, a);
        RestGateIsGate(g, ids, n, a);
      }
    }
  }

  lemma AcceptedHasGate(pipe: Pipeline, tools: map<string, ToolMode>, n: string)
    requires pipe.dag && Safe(pipe, tools) && NamesAgree(pipe.steps) && NoAgentGates(pipe.steps)
    requires n in NodeMap(pipe.steps) && Guarded(NodeMap(pipe.steps)[n], tools)
    ensures exists a :: GateAncestor(NodeMap(pipe.steps), n, a)
  {
    var g := NodeMap(pipe.steps);
    NamesAgreeGiveOneGraph(pipe.steps);
    var i: nat :| i < |pipe.steps| && pipe.steps[i] == g[n];
    assert Approved(pipe, i);
    var a :| Ancestor(g, g[n].dependsOn, a) && a in g && g[a].humanGate != "";
    assert GateAncestor(g, n, a);
  }

  /** In an accepted DAG a guarded step is called only after an approval of a gate it descends from,
      provided that the completion's list settles and does not stand between it and its gates. */
  lemma AcceptedDagIsSafe(pipe: Pipeline, tools: map<string, ToolMode>, events: seq<Event>, t: Task, n: string)
    requires pipe.dag && Safe(pipe, tools)
    requires NamesAgree(pipe.steps) && NoAgentGates(pipe.steps)
    requires n in NodeMap(pipe.steps) && Guarded(NodeMap(pipe.steps)[n], tools)
    requires var g, ids := NodeMap(pipe.steps), CompletionIDs(pipe.steps);
      ListSettles(g, ids) && GatedPastCompletion(g, ids, n) && Reached(g, ids, events, t)
    ensures ApprovedWhenCalled(NodeMap(pipe.steps), t.log, n)
  {
    AcceptedHasGate(pipe, tools, n);
    GatedIsApproved(NodeMap(pipe.steps), CompletionIDs(pipe.steps), events, t, n);
  }

  lemma {:induction false} EveryNodeHasALabel(steps: seq<Step>, n: string)
    requires NamesAgree(steps) && n in NodeMap(steps)
    ensures n in StepIDs(steps)
  {
    var last := |steps| - 1;
    if NodeName(steps[last]) == n {
      assert StepIDs(steps)[last] == n;
    } else {
      assert forall i: nat | i < last :: steps[..last][i] == steps[i];
      EveryNodeHasALabel(steps[..last], n);
      var i :| 0 <= i < last && StepIDs(steps[..last])[i] == n;
      assert StepIDs(steps)[i] == n;
    }
  }

  /** Without an analyst step the completion lists every step, and the check alone is enough. */
  lemma AcceptedWithoutAnalystIsSafe(pipe: Pipeline, tools: map<string, ToolMode>, events: seq<Event>, t: Task,
      n: string)
    requires pipe.dag && Safe(pipe, tools) && forall s <- pipe.steps :: !s.analyst
    requires NamesAgree(pipe.steps) && NoAgentGates(pipe.steps)
    requires n in NodeMap(pipe.steps) && Guarded(NodeMap(pipe.steps)[n], tools)
    requires Reached(NodeMap(pipe.steps), CompletionIDs(pipe.steps), events, t)
    ensures ApprovedWhenCalled(NodeMap(pipe.steps), t.log, n)
  {
    assert FirstAnalyst(pipe.steps) == |pipe.steps|;
    assert pipe.steps[..|pipe.steps|] == pipe.steps;
    forall m | m in NodeMap(pipe.steps)
      ensures m in CompletionIDs(pipe.steps)
    {
      EveryNodeHasALabel(pipe.steps, m);
    }
    AcceptedDagIsSafe(pipe, tools, events, t, n);
  }

  // ---------- bringing steps to their end when all goes well ----------

  const GOOD := Outcome(Holds, true, Invoked(true, true), PauseSaved, false)

  /** Nothing fails, and whoever decides approves. */
  predicate GoesWell(events: seq<Event>)
  {
    forall e <- events :: (e.NodeMoves? && e.outcome == GOOD) || e.Crash? || e.PostDecision? || e == Decide(true)
  }

  /** Every node of the segment has succeeded, or has not begun. */
  ghost predicate Calm(g: Graph, t: Task)
  {
    && t.started && t.store.Some? && t.segment.Some? && t.segment.value.nodes.Keys == g.Keys
    && forall m <- g :: var node := t.segment.value.nodes[m];
         (node.status.Success? && node.closes == 1) || node == Node(Pending, Waiting(0), 0)
  }

  ghost predicate DepsReady(g: Graph, s: Nodes, m: string)
    requires m in g && s.Keys == g.Keys
  {
    forall d <- g[m].dependsOn | d in g :: s[d].status.Success? && s[d].closes == 1
  }

  function At(t: Task, m: string, node: Node): Task
    requires t.segment.Some?
  {
    t.(segment := Some(t.segment.value.(nodes := t.segment.value.nodes[m := node])))
  }

  lemma AtTwice(t: Task, m: string, a: Node, b: Node)
    requires t.segment.Some?
    ensures At(At(t, m, a), m, b) == At(t, m, b)
  {
    assert t.segment.value.nodes[m := a][m := b] == t.segment.value.nodes[m := b];
  }

  /** The node looks at its dependencies, one after the other. */
  lemma {:induction false} Walk(g: Graph, ids: seq<string>, t: Task, m: string, k: nat) returns (events: seq<Event>)
    requires t.segment.Some? && t.segment.value.nodes.Keys == g.Keys && m in g && k <= |g[m].dependsOn|
    requires t.segment.value.nodes[m] == Node(Pending, Waiting(k), 0) && DepsReady(g, t.segment.value.nodes, m)
    ensures GoesWell(events) && forall e <- events :: e.NodeMoves?
    ensures Run(g, ids, t, events, At(t, m, Node(Pending, Waiting(|g[m].dependsOn|), 0)))
    decreases |g[m].dependsOn| - k
  {
    if k == |g[m].dependsOn| {
      events := [];
      assert t.segment.value.nodes[m := t.segment.value.nodes[m]] == t.segment.value.nodes;
    } else {
      assert g[m].dependsOn[k] in g[m].dependsOn;
      var next := Do(g, ids, t, NodeMoves(m, GOOD));
      assert next == At(t, m, Node(Pending, Waiting(k + 1), 0));
      var rest := Walk(g, ids, next, m, k + 1);
      events := [NodeMoves(m, GOOD)] + rest;
      AtTwice(t, m, Node(Pending, Waiting(k + 1), 0), Node(Pending, Waiting(|g[m].dependsOn|), 0));
      RunFirst(g, ids, t, NodeMoves(m, GOOD), rest, At(t, m, Node(Pending, Waiting(|g[m].dependsOn|), 0)));
    }
  }

  lemma ThreeMoves(g: Graph, ids: seq<string>, t: Task, a: Event, b: Event, c: Event)
    requires Can(g, t, a) && Can(g, Do(g, ids, t, a), b) && Can(g, Do(g, ids, Do(g, ids, t, a), b), c)
    ensures Run(g, ids, t, [a, b, c], Do(g, ids, Do(g, ids, Do(g, ids, t, a), b), c))
  {
    var t1, t2 := Do(g, ids, t, a), Do(g, ids, Do(g, ids, t, a), b);
    var t3 := Do(g, ids, t2, c);
    RunFirst(g, ids, t2, c, [], t3);
    RunFirst(g, ids, t1, b, [c], t3);
    RunFirst(g, ids, t, a, [b, c], t3);
    assert [c] + [] == [c] && [b] + [c] == [b, c] && [a] + [b, c] == [a, b, c];
  }

  /** What a step that acts and succeeds leaves. */
  function Acted(g: Graph, t: Task, m: string): Task
    requires t.segment.Some? && m in g
  {
    At(t, m, Node(Success, Returned, 1)).(
      log := if IsCall(g[m]) then t.log + [Call(m)] else t.log,
      told := if IsTelling(g[m]) then t.told + 1 else t.told)
  }

  /** The node acts, succeeds, and closes its channel. */
  lemma Act(g: Graph, ids: seq<string>, t: Task, m: string) returns (events: seq<Event>)
    requires t.segment.Some? && t.segment.value.nodes.Keys == g.Keys && m in g
    requires t.segment.value.nodes[m] == Node(Pending, Waiting(|g[m].dependsOn|), 0)
    requires IsGate(g[m]) ==> g[m].humanGate == t.segment.value.gate
    ensures GoesWell(events) && Run(g, ids, t, events, Acted(g, t, m))
  {
    var move := NodeMoves(m, GOOD);
    events := [move, move, move];
    var t1 := Do(g, ids, t, move);
    assert t1 == At(t, m, Node(Running, Acting, 0));
    var t2 := Do(g, ids, t1, move);
    AtTwice(t, m, Node(Running, Acting, 0), Node(Success, Closing, 0));
    AtTwice(t, m, Node(Success, Returned, 1), Node(Success, Closing, 0));
    assert t2 == At(Acted(g, t, m), m, Node(Success, Closing, 0));
    AtTwice(t, m, Node(Success, Closing, 0), Node(Success, Returned, 1));
    assert Do(g, ids, t2, move) == Acted(g, t, m);
    ThreeMoves(g, ids, t, move, move, move);
  }

  /** The gate pauses the task. */
  function PausedAt(g: Graph, t: Task, m: string): Task
    requires t.segment.Some? && m in g
  {
    var t' := At(t, m, Node(Paused, Closing, 0));
    t'.(store := Some(Saved(g[m].humanGate, Succeeded(t'.segment.value.nodes), false)))
  }

  lemma PauseAtGate(g: Graph, ids: seq<string>, t: Task, m: string) returns (events: seq<Event>)
    requires t.segment.Some? && t.segment.value.nodes.Keys == g.Keys && m in g
    requires t.segment.value.nodes[m] == Node(Pending, Waiting(|g[m].dependsOn|), 0)
    requires IsGate(g[m]) && g[m].humanGate != t.segment.value.gate
    ensures GoesWell(events) && Run(g, ids, t, events, PausedAt(g, t, m))
  {
    var move := NodeMoves(m, GOOD);
    events := [move, move];
    var t1 := Do(g, ids, t, move);
    assert t1 == At(t, m, Node(Running, Acting, 0));
    AtTwice(t, m, Node(Running, Acting, 0), Node(Paused, Closing, 0));
    assert Do(g, ids, t1, move) == PausedAt(g, t, m);
    RunFirst(g, ids, t1, move, [], PausedAt(g, t, m));
    RunFirst(g, ids, t, move, [move], PausedAt(g, t, m));
    assert [move] + [] == [move] && [move] + [move] == events;
  }

  /** After a crash the paused task is approved and resumed, with the steps that had succeeded. */
  lemma ApproveAfterCrash(g: Graph, ids: seq<string>, t: Task) returns (events: seq<Event>, t': Task)
    requires t.started && t.store.Some? && t.store.value.gate != "" && !t.store.value.twice
    ensures GoesWell(events) && Run(g, ids, t, events, t')
    ensures t'.started && t'.store == t.store && t'.log == t.log + [Approval(t.store.value.gate)]
    ensures var st := t.store.value; t'.segment == Some(Segment(st.gate, st.completed, InitialNodes(g, st.completed)))
  {
    events := [Crash, PostDecision, Decide(true)];
    ThreeMoves(g, ids, t, Crash, PostDecision, Decide(true));
    t' := Do(g, ids, Do(g, ids, Do(g, ids, t, Crash), PostDecision), Decide(true));
  }

  /** Some gate among these steps has this name. */
  ghost predicate NamesGate(g: Graph, done: set<string>, gate: string)
  {
    exists x | x in done && x in g :: IsGate(g[x]) && g[x].humanGate == gate
  }

  /** The gate at which the segment was resumed is still stored. */
  predicate StoresItsGate(t: Task)
  {
    t.segment.Some? && t.store.Some? && t.store.value.gate == t.segment.value.gate
  }

  ghost predicate Grown(g: Graph, t: Task, t': Task, done: set<string>)
    requires t.segment.Some? && t'.segment.Some?
  {
    && t.log <= t'.log
    && (forall e <- t'.log[|t.log|..] :: e.Call? || NamesGate(g, done, e.gate))
    && (t'.segment.value.gate == t.segment.value.gate || NamesGate(g, done, t'.segment.value.gate))
    && (StoresItsGate(t) ==> StoresItsGate(t'))
    && ((exists x | x in done && x in g :: IsGate(g[x]) && x !in Succeeded(t.segment.value.nodes)) ==>
          t'.segment.value.gate != "")
    && (forall x | x in done && x in g && IsCall(g[x]) && x !in Succeeded(t.segment.value.nodes) ::
        Call(x) in t'.log[|t.log|..])
    && ((forall x | x in done && x in g :: !IsGate(g[x])) ==>
          && (forall e <- t'.log[|t.log|..] :: e.Call?)
          && t'.store == t.store && t'.queued == t.queued && t'.told >= t.told
          && (forall x | x in done && x in g && IsTelling(g[x]) && x !in Succeeded(t.segment.value.nodes) ::
              t'.told > t.told)
          && t'.segment.value.gate == t.segment.value.gate && t'.segment.value.pre == t.segment.value.pre)
  }

  /** A node whose dependencies have succeeded is brought to success where no approval is asked. */
  lemma BringPlain(g: Graph, ids: seq<string>, t: Task, m: string) returns (events: seq<Event>, t': Task)
    requires t.segment.Some? && t.segment.value.nodes.Keys == g.Keys && m in g
    requires t.segment.value.nodes[m] == Node(Pending, Waiting(0), 0) && DepsReady(g, t.segment.value.nodes, m)
    requires IsGate(g[m]) ==> g[m].humanGate == t.segment.value.gate
    ensures GoesWell(events) && Run(g, ids, t, events, t') && t' == Acted(g, t, m)
  {
    events := Walk(g, ids, t, m, 0);
    var t1 := At(t, m, Node(Pending, Waiting(|g[m].dependsOn|), 0));
    var more := Act(g, ids, t1, m);
    AtTwice(t, m, Node(Pending, Waiting(|g[m].dependsOn|), 0), Node(Success, Returned, 1));
    assert Acted(g, t1, m) == Acted(g, t, m);
    t' := Acted(g, t, m);
    RunsJoin(g, ids, t, events, t1, more, t');
    events := events + more;
  }

  lemma ActedIsCalm(g: Graph, t: Task, m: string)
    requires t.started && t.store.Some? && t.segment.Some? && t.segment.value.nodes.Keys == g.Keys && m in g
    requires forall x <- g | x != m :: var node := t.segment.value.nodes[x];
      (node.status.Success? && node.closes == 1) || node == Node(Pending, Waiting(0), 0)
    ensures Calm(g, Acted(g, t, m))
    ensures Succeeded(Acted(g, t, m).segment.value.nodes) == Succeeded(t.segment.value.nodes) + {m}
    ensures t.log <= Acted(g, t, m).log
  {
  }

  lemma ActedIsGrown(g: Graph, t: Task, m: string)
    requires t.segment.Some? && m in g && (IsGate(g[m]) ==> g[m].humanGate == t.segment.value.gate)
    ensures Grown(g, t, Acted(g, t, m), {m})
  {
    var t' := Acted(g, t, m);
    assert t'.log[|t.log|..] == if IsCall(g[m]) then [Call(m)] else [];
  }

  /** The gate pauses the task, which is approved and resumed after a crash. */
  lemma PauseAndApprove(g: Graph, ids: seq<string>, t: Task, m: string) returns (events: seq<Event>, t': Task)
    requires Calm(g, t) && m in g && m !in Succeeded(t.segment.value.nodes) && DepsReady(g, t.segment.value.nodes, m)
    requires IsGate(g[m]) && g[m].humanGate != t.segment.value.gate
    ensures GoesWell(events) && Run(g, ids, t, events, t') && Calm(g, t')
    ensures t'.log == t.log + [Approval(g[m].humanGate)] && t'.segment.value.gate == g[m].humanGate
    ensures StoresItsGate(t')
    ensures Succeeded(t'.segment.value.nodes) == Succeeded(t.segment.value.nodes)
  {
    events := Walk(g, ids, t, m, 0);
    var t1 := At(t, m, Node(Pending, Waiting(|g[m].dependsOn|), 0));
    var paused := PausedAt(g, t1, m);
    var more := PauseAtGate(g, ids, t1, m);
    RunsJoin(g, ids, t, events, t1, more, paused);
    events := events + more;
    PausedSucceeded(g, t, m);
    more, t' := ApproveAfterCrash(g, ids, paused);
    RunsJoin(g, ids, t, events, paused, more, t');
    events := events + more;
    InitialSucceeded(g, Succeeded(t.segment.value.nodes));
  }

  lemma PausedSucceeded(g: Graph, t: Task, m: string)
    requires t.segment.Some? && m in g && m !in Succeeded(t.segment.value.nodes)
    ensures var t1 := At(t, m, Node(Pending, Waiting(|g[m].dependsOn|), 0));
      PausedAt(g, t1, m).store == Some(Saved(g[m].humanGate, Succeeded(t.segment.value.nodes), false))
  {
    var t1 := At(t, m, Node(Pending, Waiting(|g[m].dependsOn|), 0));
    assert Succeeded(At(t1, m, Node(Paused, Closing, 0)).segment.value.nodes) == Succeeded(t.segment.value.nodes);
  }

  lemma SameDepsReady(g: Graph, t: Task, t': Task, m: string)
    requires Calm(g, t) && Calm(g, t') && m in g && DepsReady(g, t.segment.value.nodes, m)
    requires Succeeded(t'.segment.value.nodes) == Succeeded(t.segment.value.nodes)
    ensures DepsReady(g, t'.segment.value.nodes, m)
  {
    forall d | d in g[m].dependsOn && d in g
      ensures d in Succeeded(t'.segment.value.nodes)
    {
      assert d in Succeeded(t.segment.value.nodes);
    }
  }

  /** A node whose dependencies have succeeded is brought to success, approved if it is a gate. */
  lemma BringOne(g: Graph, ids: seq<string>, t: Task, m: string) returns (events: seq<Event>, t': Task)
    requires Calm(g, t) && m in g && m !in Succeeded(t.segment.value.nodes) && DepsReady(g, t.segment.value.nodes, m)
    ensures GoesWell(events) && Run(g, ids, t, events, t') && Calm(g, t')
    ensures Succeeded(t'.segment.value.nodes) == Succeeded(t.segment.value.nodes) + {m}
    ensures Grown(g, t, t', {m})
  {
    if IsGate(g[m]) && g[m].humanGate != t.segment.value.gate {
      var t1, more;
      events, t1 := PauseAndApprove(g, ids, t, m);
      SameDepsReady(g, t, t1, m);
      assert m !in Succeeded(t1.segment.value.nodes);
      more, t' := BringPlain(g, ids, t1, m);
      ActedIsCalm(g, t1, m);
      RunsJoin(g, ids, t, events, t1, more, t');
      events := events + more;
      assert !IsCall(g[m]) && NamesGate(g, {m}, g[m].humanGate);
      assert t'.log[|t.log|..] == [Approval(g[m].humanGate)];
    } else {
      events, t' := BringPlain(g, ids, t, m);
      ActedIsCalm(g, t, m);
      ActedIsGrown(g, t, m);
    }
  }

  /** The known dependencies of the steps in S are in S or have succeeded. */
  ghost predicate Region(g: Graph, t: Task, S: set<string>)
    requires t.segment.Some?
  {
    && S <= g.Keys
    && forall x, d | x in S && d in g[x].dependsOn && d in g :: d in S || d in Succeeded(t.segment.value.nodes)
  }

  lemma {:induction false} LowestRanked(rank: Ranks, S: set<string>) returns (m: string)
    requires S != {} && S <= rank.Keys
    ensures m in S && forall x <- S :: rank[m] <= rank[x]
    decreases |S|
  {
    var y :| y in S;
    m := y;
    if S - {y} != {} {
      var z := LowestRanked(rank, S - {y});
      m := if rank[z] < rank[y] then z else y;
    }
  }

  lemma RegionIsReady(g: Graph, rank: Ranks, t: Task, S: set<string>, m: string)
    requires Acyclic(g, rank) && Calm(g, t) && Region(g, t, S)
    requires var left := S - Succeeded(t.segment.value.nodes); m in left && forall x <- left :: rank[m] <= rank[x]
    ensures DepsReady(g, t.segment.value.nodes, m)
  {
    forall d | d in g[m].dependsOn && d in g
      ensures d in Succeeded(t.segment.value.nodes)
    {
      assert rank[d] < rank[m];
    }
  }

  lemma GrownTwice(g: Graph, t: Task, t1: Task, t2: Task, m: string, S: set<string>)
    requires t.segment.Some? && t1.segment.Some? && t2.segment.Some?
    requires Grown(g, t, t1, {m}) && Grown(g, t1, t2, S) && m in S
    requires Succeeded(t1.segment.value.nodes) == Succeeded(t.segment.value.nodes) + {m}
    ensures Grown(g, t, t2, S)
  {
    var new1, new2 := t1.log[|t.log|..], t2.log[|t1.log|..];
    assert t2.log[|t.log|..] == new1 + new2;
    forall x | x in S && x in g && IsCall(g[x]) && x !in Succeeded(t.segment.value.nodes)
      ensures Call(x) in new1 + new2
    {
      if x == m {
        assert Call(x) in new1;
      } else {
        assert Call(x) in new2;
      }
    }
  }

  /** A region is brought to success, its lowest pending step first. */
  lemma {:induction false} BringRegion(g: Graph, rank: Ranks, ids: seq<string>, t: Task, S: set<string>)
    returns (events: seq<Event>, t': Task)
    requires Acyclic(g, rank) && Calm(g, t) && Region(g, t, S)
    ensures GoesWell(events) && Run(g, ids, t, events, t') && Calm(g, t')
    ensures Succeeded(t'.segment.value.nodes) == Succeeded(t.segment.value.nodes) + S
    ensures Grown(g, t, t', S)
    decreases |S - Succeeded(t.segment.value.nodes)|
  {
    var done := Succeeded(t.segment.value.nodes);
    if S - done == {} {
      events, t' := [], t;
      NothingLeft(g, t, S);
    } else {
      var m := LowestRanked(rank, S - done);
      RegionIsReady(g, rank, t, S, m);
      var t1, more;
      events, t1 := BringOne(g, ids, t, m);
      OneLess(S, done, m);
      more, t' := BringRegion(g, rank, ids, t1, S);
      RunsJoin(g, ids, t, events, t1, more, t');
      events := events + more;
      GrownTwice(g, t, t1, t', m, S);
    }
  }

  lemma NothingLeft(g: Graph, t: Task, S: set<string>)
    requires t.segment.Some? && S - Succeeded(t.segment.value.nodes) == {}
    ensures Succeeded(t.segment.value.nodes) + S == Succeeded(t.segment.value.nodes)
    ensures Grown(g, t, t, S)
  {
    var done := Succeeded(t.segment.value.nodes);
    forall x | x in S
      ensures x in done
    {
      assert x !in S - done;
    }
    assert done + S == done;
    assert t.log[|t.log|..] == [];
  }

  lemma OneLess(S: set<string>, done: set<string>, m: string)
    requires m in S - done
    ensures S - (done + {m}) == (S - done) - {m} && |S - (done + {m})| < |S - done|
    ensures done + {m} + S == done + S
  {
    assert S - (done + {m}) == (S - done) - {m};
    assert done + {m} + S == done + S;
  }

  // ---------- schedules as runs ----------

  function Moves(schedule: seq<string>, o: Outcome): seq<Event>
  {
    if schedule == [] then [] else [NodeMoves(schedule[0], o)] + Moves(schedule[1..], o)
  }

  ghost function AllAlike(g: Graph, o: Outcome): map<string, Outcome>
  {
    map n | n in g :: o
  }

  /** Conditions fail, and else all goes well. */
  const ALL_SKIPPED := GOOD.(cond := Fails)

  lemma LogsJoin(a: seq<Entry>, b: seq<Entry>, c: seq<Entry>)
    requires a <= b <= c
    ensures c[|a|..] == b[|a|..] + c[|b|..]
  {
  }

  /** What a move leaves when nothing fails. */
  ghost predicate MovedOn(g: Graph, t: Task, s': Nodes, t': Task)
    requires t.segment.Some?
  {
    && t'.segment == Some(t.segment.value.(nodes := s'))
    && t'.store.Some? && t'.started == t.started && t'.queued == t.queued && t'.told >= t.told
    && t.log <= t'.log && forall e <- t'.log[|t.log|..] :: e.Call?
  }

  lemma GoodMove(g: Graph, ids: seq<string>, t: Task, n: string, o: Outcome)
    requires t.store.Some? && Can(g, t, NodeMoves(n, o)) && (o == GOOD || o == ALL_SKIPPED)
    ensures MovedOn(g, t, NodeStep(g, t.segment.value.gate, t.segment.value.nodes, n, o),
                    Do(g, ids, t, NodeMoves(n, o)))
  {
  }

  lemma MovedOnTwice(g: Graph, t: Task, s1: Nodes, t1: Task, s2: Nodes, t2: Task)
    requires t.segment.Some? && MovedOn(g, t, s1, t1) && MovedOn(g, t1, s2, t2)
    ensures MovedOn(g, t, s2, t2)
  {
    LogsJoin(t.log, t1.log, t2.log);
  }

  /** A schedule is a run of the task in which nobody approves anything. */
  lemma {:induction false} ScheduleIsRun(g: Graph, ids: seq<string>, t: Task, o: Outcome, schedule: seq<string>,
      s': Nodes) returns (t': Task)
    requires t.segment.Some? && t.segment.value.nodes.Keys == g.Keys && t.store.Some?
    requires o == GOOD || o == ALL_SKIPPED
    requires Interleaving(g, t.segment.value.gate, AllAlike(g, o), t.segment.value.nodes, schedule, s')
    ensures Run(g, ids, t, Moves(schedule, o), t') && MovedOn(g, t, s', t')
    decreases |schedule|
  {
    if schedule == [] {
      t' := t;
    } else {
      var e := NodeMoves(schedule[0], o);
      var next := Do(g, ids, t, e);
      GoodMove(g, ids, t, schedule[0], o);
      t' := ScheduleIsRun(g, ids, next, o, schedule[1..], s');
      RunFirst(g, ids, t, e, Moves(schedule[1..], o), t');
      MovedOnTwice(g, t, next.segment.value.nodes, next, s', t');
    }
  }

  /** The segment comes to its end. */
  lemma EndSegment(g: Graph, rank: Ranks, ids: seq<string>, t: Task, o: Outcome)
      returns (events: seq<Event>, t': Task, schedule: seq<string>, s': Nodes)
    requires Acyclic(g, rank) && t.segment.Some? && t.store.Some? && t.started && (o == GOOD || o == ALL_SKIPPED)
    requires Sane(g, t.segment.value.nodes)
    ensures Run(g, ids, t, events, t') && t'.segment.None? && t'.store.Some? && t'.started && t'.queued == t.queued
    ensures t.log <= t'.log && forall e <- t'.log[|t.log|..] :: e.Call?
    ensures t'.told >= t.told && (EndsComplete(s') ==> t'.told > 0)
    ensures AllReturned(s')
    ensures Interleaving(g, t.segment.value.gate, AllAlike(g, o), t.segment.value.nodes, schedule, s')
  {
    var seg := t.segment.value;
    schedule, s' := EveryRunCanEnd(g, rank, seg.gate, AllAlike(g, o), seg.nodes, g.Keys);
    var t1 := ScheduleIsRun(g, ids, t, o, schedule, s');
    RunOneMore(g, ids, t, Moves(schedule, o), t1, SegmentEnds);
    events, t' := Moves(schedule, o) + [SegmentEnds], Do(g, ids, t1, SegmentEnds);
  }

  /** The nodes of a running segment are sane in every run. */
  lemma {:induction false} RunKeepsSane(g: Graph, ids: seq<string>, t: Task, events: seq<Event>, t': Task)
    requires Run(g, ids, t, events, t') && (t.segment.Some? ==> Sane(g, t.segment.value.nodes))
    ensures t'.segment.Some? ==> Sane(g, t'.segment.value.nodes)
    decreases |events|
  {
    if events != [] {
      EventKeepsSane(g, ids, t, events[0]);
      RunKeepsSane(g, ids, Do(g, ids, t, events[0]), events[1..], t');
    }
  }

  lemma EventKeepsSane(g: Graph, ids: seq<string>, t: Task, e: Event)
    requires Can(g, t, e) && (t.segment.Some? ==> Sane(g, t.segment.value.nodes))
    ensures var t' := Do(g, ids, t, e); t'.segment.Some? ==> Sane(g, t'.segment.value.nodes)
  {
    match e
    case Start => InitialSane(g, {});
    case NodeMoves(n, o) => StepKeepsSane(g, t.segment.value.gate, t.segment.value.nodes, n, o);
    case Decide(approved) =>
      if t.store.Some? {
        InitialSane(g, t.store.value.completed);
      }
    case _ =>
  }

  // ---------- exactly when calls are approved ----------

  ghost predicate Ungated(g: Graph, n: string)
    requires n in g
  {
    !IsGate(g[n]) && forall a :: !GateAncestor(g, n, a)
  }

  /** A step and all that it descends from. */
  ghost function Family(g: Graph, n: string): set<string>
    requires n in g
  {
    set x | x in g && (x == n || Ancestor(g, g[n].dependsOn, x))
  }

  /** A family is closed under depends_on. */
  lemma FamilyIsRegion(g: Graph, n: string)
    requires n in g
    ensures forall x, d | x in Family(g, n) && d in g[x].dependsOn && d in g :: d in Family(g, n)
  {
    forall x, d | x in Family(g, n) && d in g[x].dependsOn && d in g
      ensures d in Family(g, n)
    {
      if x == n {
        assert EndsAt(g, g[n].dependsOn, [d], d);
      } else {
        AncestorsDependencyIsAncestor(g, g[n].dependsOn, x, d);
      }
    }
  }

  lemma {:induction false} PathDescends(g: Graph, rank: Ranks, h: string, path: seq<string>, k: nat)
    requires Acyclic(g, rank) && h in g && Chain(g, g[h].dependsOn, path) && k < |path|
    ensures rank[path[k]] < rank[h]
  {
    if k > 0 {
      PathDescends(g, rank, h, path, k - 1);
      assert path[k - 1 + 1] in g[path[k - 1]].dependsOn;
    }
  }

  lemma AncestorOfAncestor(g: Graph, n: string, h: string, a: string)
    requires n in g && h in g && Ancestor(g, g[n].dependsOn, h) && Ancestor(g, g[h].dependsOn, a)
    ensures Ancestor(g, g[n].dependsOn, a)
  {
    var path :| EndsAt(g, g[h].dependsOn, path, a);
    AncestorAlong(g, n, h, path, |path| - 1);
  }

  lemma {:induction false} AncestorAlong(g: Graph, n: string, h: string, path: seq<string>, k: nat)
    requires n in g && h in g && Ancestor(g, g[n].dependsOn, h) && Chain(g, g[h].dependsOn, path) && k < |path|
    ensures Ancestor(g, g[n].dependsOn, path[k])
  {
    if k == 0 {
      AncestorsDependencyIsAncestor(g, g[n].dependsOn, h, path[0]);
    } else {
      AncestorAlong(g, n, h, path, k - 1);
      assert path[k - 1 + 1] in g[path[k - 1]].dependsOn;
      AncestorsDependencyIsAncestor(g, g[n].dependsOn, path[k - 1], path[k]);
    }
  }

  lemma FamilyOfDependency(g: Graph, c: string, d: string)
    requires c in g && d in g && d in g[c].dependsOn
    ensures Family(g, d) <= Family(g, c)
  {
    assert EndsAt(g, g[c].dependsOn, [d], d);
    forall x | x in Family(g, d)
      ensures x in Family(g, c)
    {
      if x != d {
        AncestorOfAncestor(g, c, d, x);
      }
    }
  }

  lemma FamilyRanks(g: Graph, rank: Ranks, h: string)
    requires Acyclic(g, rank) && h in g
    ensures forall d | d in g[h].dependsOn && d in g :: d != h && d in Family(g, h)
    ensures forall x, d | x in Family(g, h) - {h} && d in g[x].dependsOn && d in g :: d in Family(g, h) - {h}
  {
    FamilyIsRegion(g, h);
    forall x, d | x in Family(g, h) - {h} && d in g[x].dependsOn && d in g
      ensures d != h
    {
      var path :| EndsAt(g, g[h].dependsOn, path, x);
      PathDescends(g, rank, h, path, |path| - 1);
    }
  }

  lemma FamilyIsReady(g: Graph, rank: Ranks, t: Task, h: string)
    requires Acyclic(g, rank) && Calm(g, t) && h in g && Family(g, h) - {h} <= Succeeded(t.segment.value.nodes)
    ensures DepsReady(g, t.segment.value.nodes, h)
  {
    FamilyRanks(g, rank, h);
    forall d | d in g[h].dependsOn && d in g
      ensures d in Succeeded(t.segment.value.nodes)
    {
      assert d in Family(g, h) - {h};
    }
  }

  lemma StartIsCalm(g: Graph, ids: seq<string>) returns (t: Task)
    ensures t == Do(g, ids, FRESH, Start) && Calm(g, t) && Run(g, ids, FRESH, [Start], t)
    ensures Succeeded(t.segment.value.nodes) == {} && t.segment.value.gate == "" && t.segment.value.pre == {}
    ensures t.log == [] && t.store == Some(Saved("", {}, false)) && t.queued == 0 && t.told == 0
  {
    t := Do(g, ids, FRESH, Start);
    InitialSucceeded(g, {});
    RunFirst(g, ids, FRESH, Start, [], t);
    assert [Start] + [] == [Start];
  }

  /** A step without a gate above it is called in some run in which nobody approves anything. */
  lemma UngatedRunsUnapproved(g: Graph, rank: Ranks, ids: seq<string>, n: string) returns (events: seq<Event>, t: Task)
    requires Acyclic(g, rank) && n in g && IsToolCall(g[n]) && Ungated(g, n)
    ensures Reached(g, ids, events, t)
    ensures Call(n) in t.log && forall e <- t.log :: e.Call?
  {
    var t0 := StartIsCalm(g, ids);
    FamilyIsRegion(g, n);
    events, t := BringRegion(g, rank, ids, t0, Family(g, n));
    RunsJoin(g, ids, FRESH, [Start], t0, events, t);
    events := [Start] + events;
    assert forall x <- Family(g, n) :: x == n || !GateAncestor(g, n, x);
    assert t.log[|t0.log|..] == t.log;
  }

  lemma UnapprovedCallIsSeen(g: Graph, log: seq<Entry>, n: string, p: nat)
    requires n in g && p < |log| && log[p] == Call(n)
    requires forall e <- log[..p] :: e.Call? || e == Approval("")
    ensures !ApprovedWhenCalled(g, log, n)
  {
    forall a | GateAncestor(g, n, a)
      ensures Approval(g[a].humanGate) !in log[..p]
    {
    }
  }

  // ---------- two accepted pipelines that pay with no approval ----------

  const PAY_TOOL: map<string, ToolMode> := map["pay" := Dangerous]

  lemma TwoSteps(a: Step, b: Step)
    ensures LabelMap([a, b]) == map[][StepLabel(a, 0) := a][StepLabel(b, 1) := b]
    ensures NodeMap([a, b]) == map[][NodeName(a) := a][NodeName(b) := b]
  {
    assert [a, b][..1] == [a] && [a][..0] == [];
  }

  /** The check accepts a payment that depends directly on a step declaring a human gate. */
  lemma GateThenPayIsAccepted(gate: Step, pay: Step)
    requires gate.humanGate != "" && gate.tool == "" && pay.tool == "pay" && pay.dependsOn == [StepLabel(gate, 0)]
    requires StepLabel(gate, 0) != StepLabel(pay, 1)
    ensures Safe(Pipeline(true, [gate, pay]), PAY_TOOL)
  {
    TwoSteps(gate, pay);
    var g := LabelMap([gate, pay]);
    assert EndsAt(g, pay.dependsOn, pay.dependsOn, StepLabel(gate, 0));
    assert Ancestor(g, pay.dependsOn, StepLabel(gate, 0));
    assert Approved(Pipeline(true, [gate, pay]), 1);
  }

  /** A step whose dependencies have none descends from nothing else. */
  lemma ShallowAncestors(g: Graph, n: string)
    requires n in g && forall d <- g[n].dependsOn | d in g :: g[d].dependsOn == []
    ensures forall a | Ancestor(g, g[n].dependsOn, a) :: a in g[n].dependsOn && a in g
  {
    forall a | Ancestor(g, g[n].dependsOn, a)
      ensures a in g[n].dependsOn && a in g
    {
      var path :| EndsAt(g, g[n].dependsOn, path, a);
      if |path| > 1 {
        ChainTail(g, g[n].dependsOn, path);
      }
    }
  }

  /** A node none of whose dependencies is a gate or has dependencies descends from no gate. */
  lemma ShallowIsUngated(g: Graph, n: string)
    requires n in g && !IsGate(g[n])
    requires forall d <- g[n].dependsOn | d in g :: !IsGate(g[d]) && g[d].dependsOn == []
    ensures Ungated(g, n)
  {
    ShallowAncestors(g, n);
  }

  /** Of two steps, the second calls a tool and descends from no gate of the executor. */
  lemma PayUngated(g: Graph, ids: seq<string>, name: string, gate: Step, pay: Step)
      returns (events: seq<Event>, t: Task)
    requires g == map[][name := gate]["pay" := pay] && name != "pay" && IsToolCall(pay) && gate.dependsOn == []
    requires "pay" !in pay.dependsOn && (name in pay.dependsOn ==> !IsGate(gate))
    ensures Reached(g, ids, events, t) && Call("pay") in t.log && forall e <- t.log :: e.Call?
  {
    ShallowIsUngated(g, "pay");
    events, t := UngatedRunsUnapproved(g, map[name := 0, "pay" := 1], ids, "pay");
  }

  /** A gate without id and tool is "step_0" to the check and nameless to the executor: the
      pipeline loads, and a run pays with no approval. So NamesAgree is needed. */
  lemma UnnamedGateIsNotWaitedFor() returns (pipe: Pipeline, events: seq<Event>, t: Task)
    ensures pipe.dag && Safe(pipe, PAY_TOOL) && NoAgentGates(pipe.steps)
    ensures Reached(NodeMap(pipe.steps), CompletionIDs(pipe.steps), events, t) && Call("pay") in t.log &&
        forall e <- t.log :: e.Call?
  {
    var gate := BLANK.(humanGate := "manager");
    var pay := BLANK.(tool := "pay", dependsOn := [StepLabel(gate, 0)]);
    pipe := Pipeline(true, [gate, pay]);
    assert StepLabel(gate, 0)[0] == 's';
    GateThenPayIsAccepted(gate, pay);
    TwoSteps(gate, pay);
    events, t := PayUngated(NodeMap(pipe.steps), CompletionIDs(pipe.steps), "", gate, pay);
  }

  /** A step naming both an agent and a gate counts as a gate for the check; the executor runs the
      agent and asks nobody. So NoAgentGates is needed. */
  lemma AgentGateIsNotAsked() returns (pipe: Pipeline, events: seq<Event>, t: Task)
    ensures pipe.dag && Safe(pipe, PAY_TOOL) && NamesAgree(pipe.steps)
    ensures Reached(NodeMap(pipe.steps), CompletionIDs(pipe.steps), events, t) && Call("pay") in t.log &&
        forall e <- t.log :: e.Call?
  {
    var review := BLANK.(id := "review", agent := "reviewer", humanGate := "manager");
    var pay := BLANK.(tool := "pay", dependsOn := ["review"]);
    pipe := Pipeline(true, [review, pay]);
    GateThenPayIsAccepted(review, pay);
    TwoSteps(review, pay);
    events, t := PayUngated(NodeMap(pipe.steps), CompletionIDs(pipe.steps), "review", review, pay);
  }

  // ---------- pauses and channels ----------

  lemma NothingOvertakenIsClosed(g: Graph, completed: set<string>)
    requires Overtaken(g, completed) == {}
    ensures ClosedUnderDeps(g, completed)
  {
    forall n, d | n in completed && n in g && d in g[n].dependsOn && d in g
      ensures d in completed
    {
      DependencyIsOvertaken(g, completed, n, d);
    }
  }

  /** A pause saves a set that settles, and is closed under depends_on unless what had been loaded was
      not. It holds what the segment had loaded and all
      that has succeeded, but not the gate. */
  lemma PauseSavesClosedSet(g: Graph, ids: seq<string>, t: Task, n: string, o: Outcome)
    requires TaskInv(g, ids, t) && Can(g, t, NodeMoves(n, o))
    requires t.segment.value.nodes[n].phase.Acting? && IsGate(g[n])
    requires !Passes(g[n], t.segment.value.gate, o) && o.pause.PauseSaved?
    ensures var t' := Do(g, ids, t, NodeMoves(n, o));
      && t'.store.Some? && t'.store.value.gate == g[n].humanGate
      && Settles(g, t'.store.value.completed)
      && (Overtaken(g, t.segment.value.pre) == {} ==> ClosedUnderDeps(g, t'.store.value.completed))
      && t.segment.value.pre * g.Keys <= t'.store.value.completed
      && t'.store.value.completed == Succeeded(t'.segment.value.nodes)
      && Succeeded(t.segment.value.nodes) <= t'.store.value.completed
      && n !in t'.store.value.completed
  {
    var seg := t.segment.value;
    StepKeepsInv(g, seg.pre, seg.gate, seg.nodes, n, o);
    var s' := NodeStep(g, seg.gate, seg.nodes, n, o);
    SavedSetSettles(g, seg.pre, s');
    if Overtaken(g, seg.pre) == {} {
      NothingOvertakenIsClosed(g, Succeeded(s'));
    }
    MoveKeepsSound(g, ids, t, n, o);
  }

  /** In every run no goroutine closes a closed channel, and when a segment ends every channel was
      closed exactly once. */
  lemma NoDoubleClose(g: Graph, ids: seq<string>, events: seq<Event>, t: Task, n: string)
    requires ListSettles(g, ids) && Reached(g, ids, events, t)
    requires t.segment.Some? && n in t.segment.value.nodes
    ensures t.segment.value.nodes[n].phase.Closing? ==> t.segment.value.nodes[n].closes == 0
    ensures t.segment.value.nodes[n].closes <= 1
    ensures AllReturned(t.segment.value.nodes) ==> t.segment.value.nodes[n].closes == 1
  {
    RunKeepsTaskInv(g, ids, FRESH, events, t);
    assert NodeInv(g, t.segment.value.pre, t.segment.value.nodes, n);
  }
}
