/** The channels of a DAG task: exactly when a run closes one twice, on which the process panics. */
module DagChannels {
  import opened Pipelines
  import opened PipelineSafety
  import opened DagExecution
  import opened DagTask
  import opened DagApprovals
  import opened DagCompletion

  // ---------- a resumption from a list that does not settle ----------

  /** Conditions fail, calls are not journaled, and gates pause. */
  const FAILING := GOOD.(cond := Fails, call := StartNotJournaled)

  /** The first k dependencies were found closed and not blocking, those not listed among them. */
  ghost predicate FoundClosed(g: Graph, listed: set<string>, s: Nodes, m: string, k: nat)
    requires m in g && g.Keys == s.Keys && k <= |g[m].dependsOn|
  {
    forall j | 0 <= j < k ::
      var d := g[m].dependsOn[j];
      d in g && d !in listed ==> s[d].phase.Returned? && !Blocks(s[d].status)
  }

  ghost predicate UnlistedNode(g: Graph, listed: set<string>, s: Nodes, m: string)
    requires m in g && g.Keys == s.Keys
  {
    var node := s[m];
    && (node.status.Success? || node.status.Running? ==> FoundClosed(g, listed, s, m, |g[m].dependsOn|))
    && match node.phase
       case Waiting(k) =>
         node.status.Pending? && node.closes == 0 && k <= |g[m].dependsOn| && FoundClosed(g, listed, s, m, k)
       case Acting => node.status.Running? && node.closes == 0
       case Closing => Settled(node.status) && node.closes == 0
       case Returned => Settled(node.status) && node.closes > 0
  }

  ghost predicate ListedNode(g: Graph, listed: set<string>, s: Nodes, m: string)
    requires m in g && g.Keys == s.Keys
  {
    var node := s[m];
    match node.phase
    case Waiting(k) =>
      node.status.Success? && node.closes == 1 && k <= |g[m].dependsOn| && FoundClosed(g, listed, s, m, k)
    case Acting => false
    case Closing => node.closes == 1
    case Returned => node.closes == 2 || (node.closes == 1 && FoundClosed(g, listed, s, m, |g[m].dependsOn|))
  }

  /** What a resumption from the list keeps, while y cannot succeed. */
  ghost predicate ResumedInv(g: Graph, listed: set<string>, y: string, s: Nodes)
  {
    && g.Keys == s.Keys && y in g && !s[y].status.Success? && (s[y].status.Running? ==> g[y].when == "")
    && forall m <- g :: if m in listed then ListedNode(g, listed, s, m) else UnlistedNode(g, listed, s, m)
  }

  lemma InitialResumed(g: Graph, listed: set<string>, y: string)
    requires y in g && y !in listed
    ensures ResumedInv(g, listed, y, InitialNodes(g, listed))
  {
  }

  /** A returned node stays as it is. */
  lemma FoundStays(g: Graph, listed: set<string>, gate: string, s: Nodes, n: string, o: Outcome, m: string, k: nat)
    requires m in g && g.Keys == s.Keys && Enabled(g, s, n) && k <= |g[m].dependsOn| && FoundClosed(g, listed, s, m, k)
    ensures FoundClosed(g, listed, NodeStep(g, gate, s, n, o), m, k)
  {
  }

  lemma OwnStepKeepsResumed(g: Graph, listed: set<string>, y: string, s: Nodes, n: string)
    requires ResumedInv(g, listed, y, s) && Enabled(g, s, n)
    ensures var s' := NodeStep(g, "", s, n, FAILING);
      if n in listed then ListedNode(g, listed, s', n) else UnlistedNode(g, listed, s', n)
  {
    var s' := NodeStep(g, "", s, n, FAILING);
    if s[n].phase.Waiting? && s[n].phase.next < |g[n].dependsOn| {
      var d := g[n].dependsOn[s[n].phase.next];
      assert d in g && d !in listed && d != n ==> s'[d] == s[d] && UnlistedNode(g, listed, s, d);
      FoundStays(g, listed, "", s, n, FAILING, n, s[n].phase.next);
    } else if FoundClosed(g, listed, s, n, |g[n].dependsOn|) {
      FoundStays(g, listed, "", s, n, FAILING, n, |g[n].dependsOn|);
    }
  }

  lemma StepKeepsResumed(g: Graph, listed: set<string>, y: string, s: Nodes, n: string)
    requires ResumedInv(g, listed, y, s) && Enabled(g, s, n) && y !in listed && MayFail(g[y])
    ensures ResumedInv(g, listed, y, NodeStep(g, "", s, n, FAILING))
  {
    var s' := NodeStep(g, "", s, n, FAILING);
    OwnStepKeepsResumed(g, listed, y, s, n);
    forall m | m in g && m != n
      ensures if m in listed then ListedNode(g, listed, s', m) else UnlistedNode(g, listed, s', m)
    {
      var k := match s[m].phase case Waiting(next) => next case _ => |g[m].dependsOn|;
      if k <= |g[m].dependsOn| && FoundClosed(g, listed, s, m, k) {
        FoundStays(g, listed, "", s, n, FAILING, m, k);
      }
    }
    assert UnlistedNode(g, listed, s, y);
  }

  lemma {:induction false} ScheduleKeepsResumed(g: Graph, listed: set<string>, y: string, s: Nodes,
      schedule: seq<string>, s': Nodes)
    requires ResumedInv(g, listed, y, s) && y !in listed && MayFail(g[y])
    requires Interleaving(g, "", AllAlike(g, FAILING), s, schedule, s')
    ensures ResumedInv(g, listed, y, s')
    decreases |schedule|
  {
    if schedule != [] {
      StepKeepsResumed(g, listed, y, s, schedule[0]);
      ScheduleKeepsResumed(g, listed, y, NodeStep(g, "", s, schedule[0], FAILING), schedule[1..], s');
    }
  }

  ghost predicate ClosedTwice(s: Nodes)
  {
    exists m :: m in s && s[m].closes > 1
  }

  /** At the end, all that descends from the failed step is blocked, or some channel was closed twice:
      that of the first listed step. */
  lemma {:induction false} BlockedOrTwice(g: Graph, listed: set<string>, y: string, s: Nodes, n: string,
      path: seq<string>)
    requires ResumedInv(g, listed, y, s) && AllReturned(s) && y !in listed
    requires n in g && EndsAt(g, g[n].dependsOn, path, y)
    ensures ClosedTwice(s) || (n !in listed && Blocks(s[n].status))
    decreases |path|
  {
    var d := path[0];
    var j :| 0 <= j < |g[n].dependsOn| && g[n].dependsOn[j] == d;
    assert UnlistedNode(g, listed, s, y) && d in g;
    if |path| > 1 {
      ChainTail(g, g[n].dependsOn, path);
      BlockedOrTwice(g, listed, y, s, d, path[1..]);
    }
    assert s[n].closes > 1 ==> ClosedTwice(s);
  }

  /** Resumed from a list with an overtaken step that may fail, a segment can close a channel twice. */
  lemma ResumedClosesTwice(g: Graph, rank: Ranks, listed: set<string>, y: string)
      returns (schedule: seq<string>, s': Nodes)
    requires Acyclic(g, rank) && y in Overtaken(g, listed) && MayFail(g[y])
    ensures Interleaving(g, "", AllAlike(g, FAILING), InitialNodes(g, listed), schedule, s') && ClosedTwice(s')
  {
    var s := InitialNodes(g, listed);
    InitialSane(g, listed);
    InitialResumed(g, listed, y);
    schedule, s' := EveryRunCanEnd(g, rank, "", AllAlike(g, FAILING), s, g.Keys);
    ScheduleKeepsResumed(g, listed, y, s, schedule, s');
    var x :| x in listed && x in g && Ancestor(g, g[x].dependsOn, y);
    var path :| EndsAt(g, g[x].dependsOn, path, y);
    BlockedOrTwice(g, listed, y, s', x, path);
  }

  // ---------- exactly when a run closes a channel twice ----------

  lemma ReachAllDone(g: Graph, rank: Ranks, ids: seq<string>, u: string) returns (events: seq<Event>, t: Task)
    requires Acyclic(g, rank) && u in g && IsGate(g[u])
    ensures Reached(g, ids, events, t) && Calm(g, t) && Succeeded(t.segment.value.nodes) == g.Keys
    ensures t.store.Some? && t.store.value.gate != "" && Inv(g, t.segment.value.pre, t.segment.value.nodes)
  {
    var t0 := StartIsCalm(g, ids);
    var more;
    more, t := BringRegion(g, rank, ids, t0, g.Keys);
    GatesAreStored(g, t0, t, u);
    RunsJoin(g, ids, FRESH, [Start], t0, more, t);
    events := [Start] + more;
    StartedWellIsClosed(g, ids, events, t);
  }

  lemma GatesAreStored(g: Graph, t: Task, t': Task, u: string)
    requires t.segment.Some? && t'.segment.Some? && Grown(g, t, t', g.Keys) && StoresItsGate(t)
    requires u in g && IsGate(g[u]) && u !in Succeeded(t.segment.value.nodes)
    ensures t'.store.Some? && t'.store.value.gate != ""
  {
  }

  /** All steps have succeeded, the analyst is told, and somebody decides: the gate is still stored. */
  lemma ReachCompleted(g: Graph, rank: Ranks, ids: seq<string>, u: string) returns (events: seq<Event>, t: Task)
    requires Acyclic(g, rank) && u in g && IsGate(g[u])
    ensures Reached(g, ids, events, t) && t.started && t.segment.None? && t.store.Some? && t.queued > 0 && t.told > 0
  {
    var t0, t1, more, schedule, s';
    events, t0 := ReachAllDone(g, rank, ids, u);
    RunOneMore(g, ids, FRESH, events, t0, PostDecision);
    events, t1 := events + [PostDecision], Do(g, ids, t0, PostDecision);
    var seg := t1.segment.value;
    InvIsSane(g, seg.pre, seg.nodes);
    more, t, schedule, s' := EndSegment(g, rank, ids, t1, GOOD);
    ScheduleKeeps(g, seg.pre, seg.gate, GOOD, seg.nodes, schedule, s');
    assert forall m <- s' :: m in Succeeded(s');
    RunsJoin(g, ids, FRESH, events, t1, more, t);
    events := events + more;
  }

  /** Moves of a segment, whatever their outcome. */
  lemma {:induction false} MovesAreRun(g: Graph, ids: seq<string>, t: Task, o: Outcome, schedule: seq<string>,
      s': Nodes) returns (t': Task)
    requires t.segment.Some?
    requires Interleaving(g, t.segment.value.gate, AllAlike(g, o), t.segment.value.nodes, schedule, s')
    ensures Run(g, ids, t, Moves(schedule, o), t') && t'.segment == Some(t.segment.value.(nodes := s'))
    decreases |schedule|
  {
    if schedule == [] {
      t' := t;
    } else {
      var e := NodeMoves(schedule[0], o);
      t' := MovesAreRun(g, ids, Do(g, ids, t, e), o, schedule[1..], s');
      RunFirst(g, ids, t, e, Moves(schedule[1..], o), t');
    }
  }

  /** A list that does not settle makes some run close a channel twice. */
  lemma UnsettledListClosesTwice(g: Graph, rank: Ranks, ids: seq<string>, u: string)
      returns (events: seq<Event>, t: Task)
    requires Acyclic(g, rank) && !ListSettles(g, ids) && u in g && IsGate(g[u])
    ensures Reached(g, ids, events, t) && t.segment.Some? && ClosedTwice(t.segment.value.nodes)
  {
    var t0;
    events, t0 := ReachCompleted(g, rank, ids, u);
    var y :| y in Overtaken(g, AsSet(ids)) && MayFail(g[y]);
    RunOneMore(g, ids, FRESH, events, t0, Complete);
    events, t0 := events + [Complete], Do(g, ids, t0, Complete);
    RunOneMore(g, ids, FRESH, events, t0, Decide(true));
    events, t0 := events + [Decide(true)], Do(g, ids, t0, Decide(true));
    var schedule, s' := ResumedClosesTwice(g, rank, AsSet(ids), y);
    t := MovesAreRun(g, ids, t0, FAILING, schedule, s');
    RunsJoin(g, ids, FRESH, events, t0, Moves(schedule, FAILING), t);
    events := events + Moves(schedule, FAILING);
  }

  /** Without a gate nobody decides, and nothing is resumed. */
  ghost predicate UndecidedInv(g: Graph, t: Task)
  {
    && t.queued == 0 && (t.store.Some? ==> t.store.value.gate == "")
    && (t.segment.Some? ==>
          t.segment.value.gate == "" && t.segment.value.pre == {} && Inv(g, {}, t.segment.value.nodes))
  }

  lemma EventKeepsUndecided(g: Graph, ids: seq<string>, t: Task, e: Event)
    requires (forall x <- g :: !IsGate(g[x])) && UndecidedInv(g, t) && Can(g, t, e)
    ensures UndecidedInv(g, Do(g, ids, t, e))
  {
    match e
    case Start =>
      ClosedSettles(g, {});
      InitialInv(g, {});
    case NodeMoves(m, o) =>
      StepKeepsInv(g, {}, "", t.segment.value.nodes, m, o);
      MoveStores(g, ids, t, m, o);
    case _ =>
  }

  lemma {:induction false} RunKeepsUndecided(g: Graph, ids: seq<string>, t: Task, events: seq<Event>, t': Task)
    requires (forall x <- g :: !IsGate(g[x])) && UndecidedInv(g, t) && Run(g, ids, t, events, t')
    ensures UndecidedInv(g, t')
    decreases |events|
  {
    if events != [] {
      EventKeepsUndecided(g, ids, t, events[0]);
      RunKeepsUndecided(g, ids, Do(g, ids, t, events[0]), events[1..], t');
    }
  }

  /** No run closes a channel twice, if and only if whatever the steps that the completion lists
      descend from is listed, too, or cannot fail; or the list names a step twice; or there is no gate. */
  lemma ChannelsCloseOnceExactly(g: Graph, rank: Ranks, ids: seq<string>)
    requires Acyclic(g, rank)
    ensures ListSettles(g, ids) || (forall x <- g :: !IsGate(g[x]))
       <==> (forall events, t | Reached(g, ids, events, t) && t.segment.Some? :: !ClosedTwice(t.segment.value.nodes))
  {
    if u :| u in g && IsGate(g[u]) && !ListSettles(g, ids) {
      var events, t := UnsettledListClosesTwice(g, rank, ids, u);
    } else {
      forall events, t | Reached(g, ids, events, t) && t.segment.Some?
        ensures !ClosedTwice(t.segment.value.nodes)
      {
        if ListSettles(g, ids) {
          RunKeepsTaskInv(g, ids, FRESH, events, t);
        } else {
          RunKeepsUndecided(g, ids, FRESH, events, t);
        }
        InvClosesOnce(g, t.segment.value.pre, t.segment.value.nodes);
      }
    }
  }

  lemma InvClosesOnce(g: Graph, pre: set<string>, s: Nodes)
    requires Inv(g, pre, s)
    ensures !ClosedTwice(s)
  {
    forall m <- s
      ensures s[m].closes <= 1
    {
      assert NodeInv(g, pre, s, m);
    }
  }

  // ---------- a declared pipeline whose list does not settle ----------

  const REVIEW := BLANK.(id := "ask", humanGate := "manager")
  const LOAD_PAY := BLANK.(id := "pay", tool := "pay", dependsOn := ["ask", "load"])
  const TELL := BLANK.(id := "sum", analyst := true)
  const LOAD := BLANK.(id := "load", tool := "load")
  const HOLD_LAST := BLANK.(id := "hold", humanGate := "other")
  const STEPS: seq<Step> := [REVIEW, LOAD_PAY, TELL, LOAD, HOLD_LAST]
  const LOADING: Graph :=
    map["ask" := REVIEW, "pay" := LOAD_PAY, "sum" := TELL, "load" := LOAD, "hold" := HOLD_LAST]
  const LOADING_RANKS: Ranks := map["ask" := 0, "pay" := 1, "sum" := 0, "load" := 0, "hold" := 0]

  lemma LoadingMaps()
    ensures NodeMap(STEPS) == LOADING && LabelMap(STEPS) == LOADING
    ensures NamesAgree(STEPS) && NoAgentGates(STEPS)
  {
    TwoSteps(REVIEW, LOAD_PAY);
    OneMoreStep([REVIEW, LOAD_PAY], TELL);
    OneMoreStep([REVIEW, LOAD_PAY, TELL], LOAD);
    OneMoreStep([REVIEW, LOAD_PAY, TELL, LOAD], HOLD_LAST);
    assert [REVIEW, LOAD_PAY] + [TELL] == [REVIEW, LOAD_PAY, TELL];
    assert [REVIEW, LOAD_PAY, TELL] + [LOAD] == [REVIEW, LOAD_PAY, TELL, LOAD];
    assert [REVIEW, LOAD_PAY, TELL, LOAD] + [HOLD_LAST] == STEPS;
  }

  lemma LoadingIsListed()
    ensures CompletionIDs(STEPS) == ["ask", "pay"]
  {
    assert !STEPS[0].analyst && !STEPS[1].analyst && STEPS[2].analyst;
    assert FirstAnalyst(STEPS) == 2 && STEPS[..2] == [REVIEW, LOAD_PAY];
    assert StepIDs([REVIEW, LOAD_PAY]) == ["ask", "pay"];
  }

  lemma LoadIsOvertaken(g: Graph, ids: seq<string>)
    requires g == LOADING && ids == ["ask", "pay"]
    ensures "load" in Overtaken(g, AsSet(ids)) && !ListSettles(g, ids)
  {
    assert g["pay"].dependsOn[1] == "load";
    assert EndsAt(g, g["pay"].dependsOn, ["load"], "load");
  }

  /** The pipeline, as far as it matters. */
  lemma LoadingPipeline() returns (pipe: Pipeline)
    ensures pipe.dag && Safe(pipe, PAY_TOOL) && NamesAgree(pipe.steps) && NoAgentGates(pipe.steps)
    ensures NodeMap(pipe.steps) == LOADING && CompletionIDs(pipe.steps) == ["ask", "pay"]
  {
    pipe := Pipeline(true, STEPS);
    LoadingIsAccepted();
    LoadingMaps();
    LoadingIsListed();
  }

  lemma LoadingIsAccepted()
    ensures Safe(Pipeline(true, STEPS), PAY_TOOL)
  {
    LoadingMaps();
    OnlyPayPays();
    GatedPaymentIsAccepted(STEPS, 1);
  }

  lemma OnlyPayPays()
    ensures |STEPS| == 5 && "ask" in STEPS[1].dependsOn
    ensures forall j | 0 <= j < |STEPS| && j != 1 :: STEPS[j].tool != "pay"
  {
    assert STEPS[1].dependsOn[0] == "ask";
  }

  lemma LoadingIsAcyclic(g: Graph)
    requires g == LOADING
    ensures Acyclic(g, LOADING_RANKS) && IsGate(g["ask"]) && IsToolCall(g["pay"])
  {
  }

  lemma LoadingClosesTwice(g: Graph, ids: seq<string>) returns (events: seq<Event>, t: Task)
    requires g == LOADING && ids == ["ask", "pay"]
    ensures Reached(g, ids, events, t) && t.segment.Some? && ClosedTwice(t.segment.value.nodes)
  {
    LoadIsOvertaken(g, ids);
    LoadingIsAcyclic(g);
    events, t := UnsettledListClosesTwice(g, LOADING_RANKS, ids, "ask");
  }

  /** The check accepts a pipeline whose completion lists a payment without a step that it depends on:
      a run of it closes a channel twice. */
  lemma AcceptedPipelineClosesTwice() returns (pipe: Pipeline, events: seq<Event>, t: Task)
    ensures pipe.dag && Safe(pipe, PAY_TOOL) && NamesAgree(pipe.steps) && NoAgentGates(pipe.steps)
    ensures Reached(NodeMap(pipe.steps), CompletionIDs(pipe.steps), events, t)
    ensures t.segment.Some? && ClosedTwice(t.segment.value.nodes)
  {
    pipe := LoadingPipeline();
    events, t := LoadingClosesTwice(NodeMap(pipe.steps), CompletionIDs(pipe.steps));
  }

  // ---------- a payment that a completion lists, and that runs unapproved ----------

  /** Where the task stands when the completion lists the payment, and a decision is on its way. */
  ghost predicate ListsPayment(t: Task)
  {
    t.started && t.segment.None? && t.queued > 0 && t.store == Some(Saved("", {"ask", "pay"}, false))
  }

  ghost predicate LoadFailed(t: Task)
  {
    && t.started && t.store.Some? && t.segment.Some? && t.segment.value.gate == ""
    && t.segment.value.nodes == map["ask" := Node(Success, Waiting(0), 1), "pay" := Node(Success, Waiting(0), 1),
         "sum" := Node(Pending, Waiting(0), 0), "hold" := Node(Pending, Waiting(0), 0),
         "load" := Node(Failed, Returned, 1)]
  }

  lemma ResumeAndFailLoad(g: Graph, ids: seq<string>, t: Task) returns (events: seq<Event>, t': Task)
    requires g == LOADING && ListsPayment(t)
    ensures Run(g, ids, t, events, t') && LoadFailed(t') && t'.log == t.log + [Approval("")] + [Call("load")]
  {
    var fail := NodeMoves("load", GOOD.(call := Invoked(false, true)));
    var t1 := Do(g, ids, t, Decide(true));
    assert t1.segment.value.nodes == map["ask" := Node(Success, Waiting(0), 1), "pay" := Node(Success, Waiting(0), 1),
        "sum" := Node(Pending, Waiting(0), 0), "hold" := Node(Pending, Waiting(0), 0),
        "load" := Node(Pending, Waiting(0), 0)];
    t' := FailLoad(g, ids, t1, fail);
    RunFirst(g, ids, t, Decide(true), [fail, fail, fail], t');
    events := [Decide(true)] + [fail, fail, fail];
  }

  lemma FailLoad(g: Graph, ids: seq<string>, t: Task, fail: Event) returns (t': Task)
    requires g == LOADING && t.started && t.store.Some? && t.segment.Some? && t.segment.value.nodes.Keys == g.Keys
    requires t.segment.value.nodes["load"] == Node(Pending, Waiting(0), 0)
    requires fail == NodeMoves("load", GOOD.(call := Invoked(false, true)))
    ensures Run(g, ids, t, [fail, fail, fail], t') && t'.log == t.log + [Call("load")]
    ensures t' == At(t, "load", Node(Failed, Returned, 1)).(log := t'.log)
  {
    ThreeMoves(g, ids, t, fail, fail, fail);
    var t1 := Do(g, ids, t, fail);
    assert t1 == At(t, "load", Node(Running, Acting, 0));
    AtTwice(t, "load", Node(Running, Acting, 0), Node(Failed, Closing, 0));
    var t2 := Do(g, ids, t1, fail);
    assert t2 == At(t, "load", Node(Failed, Closing, 0)).(log := t2.log);
    AtTwice(t, "load", Node(Failed, Closing, 0), Node(Failed, Returned, 1));
    t' := Do(g, ids, t2, fail);
  }

  /** The payment is overwritten as skipped, and another gate pauses the task before its channel is
      closed again. */
  lemma OverwriteAndPause(g: Graph, ids: seq<string>, t: Task) returns (events: seq<Event>, t': Task)
    requires g == LOADING && LoadFailed(t)
    ensures Run(g, ids, t, events, t') && t'.started && t'.log == t.log
    ensures t'.store == Some(Saved("other", {"ask"}, false))
  {
    var pay, hold := NodeMoves("pay", GOOD), NodeMoves("hold", GOOD);
    var t1 := Do(g, ids, Do(g, ids, t, pay), pay);
    assert t1.segment.value.nodes["pay"] == Node(CascadedSkip, Closing, 1);
    RunFirst(g, ids, Do(g, ids, t, pay), pay, [], t1);
    RunFirst(g, ids, t, pay, [pay] + [], t1);
    t' := Do(g, ids, Do(g, ids, t1, hold), hold);
    RunFirst(g, ids, Do(g, ids, t1, hold), hold, [], t');
    RunFirst(g, ids, t1, hold, [hold] + [], t');
    assert Succeeded(t'.segment.value.nodes) == {"ask"};
    RunsJoin(g, ids, t, [pay] + ([pay] + []), t1, [hold] + ([hold] + []), t');
    events := [pay] + ([pay] + []) + ([hold] + ([hold] + []));
  }

  lemma LoadAndPayAreRegion(g: Graph, t: Task)
    requires g == LOADING && t.started && t.store.Some?
    requires t.segment == Some(Segment("other", {"ask"}, InitialNodes(g, {"ask"})))
    ensures Calm(g, t) && Region(g, t, {"load", "pay"}) && "pay" !in Succeeded(t.segment.value.nodes)
  {
  }

  /** After the crash the other gate is approved, and the payment is made. */
  lemma ApproveOtherAndPay(g: Graph, ids: seq<string>, t: Task) returns (events: seq<Event>, t': Task)
    requires g == LOADING && t.started && t.store == Some(Saved("other", {"ask"}, false))
    ensures Run(g, ids, t, events, t') && t.log + [Approval("other")] <= t'.log
    ensures var added := t'.log[|t.log| + 1..]; Call("pay") in added && forall e <- added :: e.Call?
  {
    var t1, more;
    events, t1 := ApproveAfterCrash(g, ids, t);
    more, t' := LoadAndPay(g, ids, t1);
    RunsJoin(g, ids, t, events, t1, more, t');
    events := events + more;
  }

  lemma LoadAndPay(g: Graph, ids: seq<string>, t: Task) returns (events: seq<Event>, t': Task)
    requires g == LOADING && t.started && t.store.Some?
    requires t.segment == Some(Segment("other", {"ask"}, InitialNodes(g, {"ask"})))
    ensures Run(g, ids, t, events, t') && t.log <= t'.log
    ensures Call("pay") in t'.log[|t.log|..] && forall e <- t'.log[|t.log|..] :: e.Call?
  {
    LoadAndPayAreRegion(g, t);
    LoadingIsAcyclic(g);
    events, t' := BringRegion(g, LOADING_RANKS, ids, t, {"load", "pay"});
  }

  lemma PayOverwritten(g: Graph, ids: seq<string>, t: Task) returns (events: seq<Event>, t': Task)
    requires g == LOADING && ListsPayment(t) && NoneApproved(g, "pay", t.log)
    ensures Run(g, ids, t, events, t') && !ApprovedWhenCalled(g, t'.log, "pay")
  {
    var t1, t2, more;
    events, t1 := ResumeAndFailLoad(g, ids, t);
    more, t2 := OverwriteAndPause(g, ids, t1);
    RunsJoin(g, ids, t, events, t1, more, t2);
    events := events + more;
    more, t' := ApproveOtherAndPay(g, ids, t2);
    RunsJoin(g, ids, t, events, t2, more, t');
    events := events + more;
    PaidUnapproved(g, t.log, t2.log, t'.log);
  }

  lemma PaidUnapproved(g: Graph, log: seq<Entry>, resumed: seq<Entry>, more: seq<Entry>)
    requires g == LOADING && NoneApproved(g, "pay", log) && resumed == log + [Approval("")] + [Call("load")]
    requires resumed + [Approval("other")] <= more
    requires var added := more[|resumed| + 1..]; Call("pay") in added && forall e <- added :: e.Call?
    ensures !ApprovedWhenCalled(g, more, "pay")
  {
    var added := more[|resumed| + 1..];
    var q :| 0 <= q < |added| && added[q] == Call("pay");
    var p := |resumed| + 1 + q;
    assert more[p] == Call("pay");
    PayIsManaged(g);
    assert more[..p][|log|..] == [Approval("")] + [Call("load")] + [Approval("other")] + added[..q];
    assert NamesGate(g, {"hold"}, "other");
    StaysUnapproved(g, "pay", log, more[..p], {"hold"});
  }

  lemma PayIsManaged(g: Graph)
    requires g == LOADING
    ensures GateAncestor(g, "pay", "ask") && forall a | GateAncestor(g, "pay", a) :: a == "ask"
  {
    assert g["pay"].dependsOn[0] == "ask";
    assert EndsAt(g, g["pay"].dependsOn, ["ask"], "ask");
    ShallowAncestors(g, "pay");
  }

  lemma SumTellsApart(g: Graph)
    requires g == LOADING
    ensures TellsApart(g, "pay", "sum")
  {
  }

  lemma LoadingPays(g: Graph, ids: seq<string>) returns (events: seq<Event>, t: Task)
    requires g == LOADING && ids == ["ask", "pay"]
    ensures Reached(g, ids, events, t) && !ApprovedWhenCalled(g, t.log, "pay")
  {
    var t0, more;
    PayIsManaged(g);
    SumTellsApart(g);
    LoadingIsAcyclic(g);
    events, t0 := ReachCompletion(g, LOADING_RANKS, ids, "pay");
    RunOneMore(g, ids, FRESH, events, t0, Complete);
    events, t0 := events + [Complete], Do(g, ids, t0, Complete);
    assert AsSet(ids) == {"ask", "pay"};
    more, t := PayOverwritten(g, ids, t0);
    RunsJoin(g, ids, FRESH, events, t0, more, t);
    events := events + more;
  }

  /** Though the completion lists the payment, it is made unapproved: a step that it depends on fails
      after the resumption, and its success is overwritten. So ListSettles is needed. */
  lemma AcceptedPipelinePaysOverwritten() returns (pipe: Pipeline, events: seq<Event>, t: Task)
    ensures pipe.dag && Safe(pipe, PAY_TOOL) && NamesAgree(pipe.steps) && NoAgentGates(pipe.steps)
    ensures Reached(NodeMap(pipe.steps), CompletionIDs(pipe.steps), events, t)
    ensures "pay" in CompletionIDs(pipe.steps) && "pay" in NodeMap(pipe.steps)
    ensures !ApprovedWhenCalled(NodeMap(pipe.steps), t.log, "pay")
  {
    pipe := LoadingPipeline();
    events, t := LoadingPays(NodeMap(pipe.steps), CompletionIDs(pipe.steps));
  }
}
