/** The analyst's completion of a DAG task: exactly when it lets a step be called past its gates. */
module DagCompletion {
  import opened Pipelines
  import opened PipelineSafety
  import opened DagExecution
  import opened DagTask
  import opened DagApprovals

  // ---------- the gates above a step ----------

  /** Of the gates above a step one descends from no other. */
  lemma TopmostGate(g: Graph, rank: Ranks, n: string) returns (h: string)
    requires Acyclic(g, rank) && n in g && exists a :: GateAncestor(g, n, a)
    ensures GateAncestor(g, n, h) && forall a :: !GateAncestor(g, h, a)
    ensures forall x <- Family(g, h) - {h} :: !IsGate(g[x])
  {
    var gates := set a | a in g && GateAncestor(g, n, a);
    var some :| GateAncestor(g, n, some);
    assert some in gates;
    h := LowestRanked(rank, gates);
    forall a
      ensures !GateAncestor(g, h, a)
    {
      if GateAncestor(g, h, a) {
        AncestorOfAncestor(g, n, h, a);
        assert a in gates;
        var path :| EndsAt(g, g[h].dependsOn, path, a);
        PathDescends(g, rank, h, path, |path| - 1);
      }
    }
    assert forall x <- Family(g, h) - {h} :: !GateAncestor(g, h, x);
  }

  // ---------- a completion before every approval ----------

  /** What a run adds to a log approves none of the gates above n. */
  lemma StaysUnapproved(g: Graph, n: string, log: seq<Entry>, more: seq<Entry>, done: set<string>)
    requires n in g && NoneApproved(g, n, log) && log <= more
    requires forall e <- more[|log|..] :: e.Call? || e.gate == "" || NamesGate(g, done, e.gate)
    requires forall x <- done :: !NamedLikeGate(g, n, x)
    ensures NoneApproved(g, n, more)
  {
    assert more == log + more[|log|..];
    forall a | GateAncestor(g, n, a)
      ensures Approval(g[a].humanGate) !in more
    {
      GateIsNotNamed(g, n, a, done);
    }
  }

  lemma GateIsNotNamed(g: Graph, n: string, h: string, done: set<string>)
    requires n in g && GateAncestor(g, n, h) && forall x <- done :: !NamedLikeGate(g, n, x)
    ensures !NamesGate(g, done, g[h].humanGate)
  {
  }

  /** Steps that depend on no others are brought to success, with no approval above n. */
  lemma FromStart(g: Graph, rank: Ranks, ids: seq<string>, n: string, S: set<string>)
      returns (events: seq<Event>, t: Task)
    requires Acyclic(g, rank) && n in g && ClosedUnderDeps(g, S) && S <= g.Keys
    requires forall x <- S :: !NamedLikeGate(g, n, x)
    ensures Reached(g, ids, events, t) && events != [] && events[0] == Start && GoesWell(events[1..]) && Calm(g, t)
    ensures NoneApproved(g, n, t.log) && Succeeded(t.segment.value.nodes) == S && StoresItsGate(t)
    ensures t.segment.value.gate == "" || NamesGate(g, S, t.segment.value.gate)
    ensures (exists x | x in S :: IsGate(g[x])) ==> t.segment.value.gate != ""
    ensures (forall x <- S :: !IsGate(g[x])) ==> t.segment.value.pre == {} && t.queued == 0
  {
    var t0 := StartIsCalm(g, ids);
    events, t := BringRegion(g, rank, ids, t0, S);
    RunsJoin(g, ids, FRESH, [Start], t0, events, t);
    events := [Start] + events;
    StaysUnapproved(g, n, t0.log, t.log, S);
  }

  /** All that the analyst step descends from has succeeded, with no approval above n. */
  lemma ReachTeller(g: Graph, rank: Ranks, ids: seq<string>, n: string, a: string)
      returns (events: seq<Event>, t: Task)
    requires Acyclic(g, rank) && n in g && TellsApart(g, n, a)
    ensures Reached(g, ids, events, t) && Calm(g, t) && NoneApproved(g, n, t.log)
    ensures Succeeded(t.segment.value.nodes) == Family(g, a) - {a}
    ensures t.segment.value.gate == "" || NamesGate(g, Family(g, a) - {a}, t.segment.value.gate)
    ensures forall x <- Family(g, a) - {a} :: !NamedLikeGate(g, n, x)
  {
    FamilyRanks(g, rank, a);
    forall x | x in Family(g, a) - {a}
      ensures !NamedLikeGate(g, n, x)
    {
      assert IsGate(g[x]) ==> GateAncestor(g, a, x);
    }
    events, t := FromStart(g, rank, ids, n, Family(g, a) - {a});
  }

  /** The topmost gate above n, and what it takes to come to it. */
  ghost predicate Topmost(g: Graph, n: string, h: string)
    requires n in g
  {
    GateAncestor(g, n, h) && forall x <- Family(g, h) - {h} :: !IsGate(g[x])
  }

  /** The analyst has been told, and all that the gate descends from has succeeded. */
  lemma ToldBeforeGate(g: Graph, rank: Ranks, ids: seq<string>, n: string, h: string, a: string)
      returns (events: seq<Event>, t: Task)
    requires Acyclic(g, rank) && n in g && TellsApart(g, n, a) && Topmost(g, n, h)
    ensures Reached(g, ids, events, t) && Calm(g, t) && t.told > 0 && t.segment.value.gate != g[h].humanGate
    ensures h !in Succeeded(t.segment.value.nodes) && DepsReady(g, t.segment.value.nodes, h)
    ensures NoneApproved(g, n, t.log)
  {
    var t0, more;
    events, t0 := ReachTeller(g, rank, ids, n, a);
    assert NamedLikeGate(g, n, h) && h in g && IsGate(g[h]);
    more, t := TellAndReach(g, rank, ids, t0, a, h);
    RunsJoin(g, ids, FRESH, events, t0, more, t);
    events := events + more;
    StaysUnapproved(g, n, t0.log, t.log, {});
    GateIsNotNamed(g, n, h, Family(g, a) - {a});
  }

  lemma TellAndReach(g: Graph, rank: Ranks, ids: seq<string>, t: Task, a: string, h: string)
      returns (events: seq<Event>, t': Task)
    requires Acyclic(g, rank) && Calm(g, t) && a in g && IsTelling(g[a]) && h in g && IsGate(g[h])
    requires Succeeded(t.segment.value.nodes) == Family(g, a) - {a}
    requires h !in Family(g, a) && forall x <- Family(g, h) - {h} :: !IsGate(g[x])
    ensures Run(g, ids, t, events, t') && Calm(g, t') && t'.told > 0 && t'.segment.value.gate == t.segment.value.gate
    ensures h !in Succeeded(t'.segment.value.nodes) && DepsReady(g, t'.segment.value.nodes, h)
    ensures t.log <= t'.log && forall e <- t'.log[|t.log|..] :: e.Call?
  {
    TellRegion(g, rank, t, a, h);
    events, t' := BringRegion(g, rank, ids, t, {a} + (Family(g, h) - {h}));
    FamilyIsReady(g, rank, t', h);
  }

  lemma TellRegion(g: Graph, rank: Ranks, t: Task, a: string, h: string)
    requires Acyclic(g, rank) && t.segment.Some? && a in g && h in g
    requires Succeeded(t.segment.value.nodes) == Family(g, a) - {a}
    ensures Region(g, t, {a} + (Family(g, h) - {h}))
  {
    FamilyRanks(g, rank, a);
    FamilyRanks(g, rank, h);
  }

  /** The gate looks at its dependencies and pauses the task. */
  lemma WalkAndPause(g: Graph, ids: seq<string>, t: Task, h: string) returns (events: seq<Event>, t': Task)
    requires Calm(g, t) && h in g && IsGate(g[h]) && t.segment.value.gate != g[h].humanGate
    requires h !in Succeeded(t.segment.value.nodes) && DepsReady(g, t.segment.value.nodes, h)
    ensures Run(g, ids, t, events, t') && forall e <- events :: !e.Complete?
    ensures t' == At(t, h, Node(Paused, Closing, 0)).(store := t'.store)
    ensures t'.store == Some(Saved(g[h].humanGate, Succeeded(t.segment.value.nodes), false))
  {
    events := Walk(g, ids, t, h, 0);
    var t1 := At(t, h, Node(Pending, Waiting(|g[h].dependsOn|), 0));
    var more := PauseAtGate(g, ids, t1, h);
    t' := PausedAt(g, t1, h);
    PausedSucceeded(g, t, h);
    AtTwice(t, h, Node(Pending, Waiting(|g[h].dependsOn|), 0), Node(Paused, Closing, 0));
    RunsJoin(g, ids, t, events, t1, more, t');
    events := events + more;
  }

  /** The gate pauses the task, and someone decides. */
  lemma PauseAndPost(g: Graph, ids: seq<string>, t: Task, h: string) returns (events: seq<Event>, t': Task)
    requires Calm(g, t) && h in g && IsGate(g[h]) && t.segment.value.gate != g[h].humanGate
    requires h !in Succeeded(t.segment.value.nodes) && DepsReady(g, t.segment.value.nodes, h)
    ensures Run(g, ids, t, events, t') && t'.started && t'.segment.Some? && t'.segment.value.nodes.Keys == g.Keys
    ensures t'.store.Some? && t'.queued > 0 && t'.told == t.told && t'.log == t.log
  {
    events, t' := WalkAndPause(g, ids, t, h);
    RunOneMore(g, ids, t, events, t', PostDecision);
    events, t' := events + [PostDecision], Do(g, ids, t', PostDecision);
  }

  /** Nothing runs, a decision and a message to the analyst are on their way, and no gate above n
      has been approved. */
  ghost predicate AboutToComplete(g: Graph, n: string, t: Task)
    requires n in g
  {
    && t.started && t.segment.None? && t.store.Some? && t.queued > 0 && t.told > 0
    && NoneApproved(g, n, t.log)
  }

  /** The analyst is told, a gate pauses the task, someone decides, and the segment ends. */
  lemma ToldAndQueued(g: Graph, rank: Ranks, ids: seq<string>, n: string, h: string, a: string)
      returns (events: seq<Event>, t: Task)
    requires Acyclic(g, rank) && n in g && TellsApart(g, n, a) && Topmost(g, n, h)
    ensures Reached(g, ids, events, t) && AboutToComplete(g, n, t)
  {
    var t0, t1, more, schedule, s';
    events, t0 := ToldBeforeGate(g, rank, ids, n, h, a);
    more, t1 := PauseAndPost(g, ids, t0, h);
    RunsJoin(g, ids, FRESH, events, t0, more, t1);
    events := events + more;
    RunKeepsSane(g, ids, FRESH, events, t1);
    more, t, schedule, s' := EndSegment(g, rank, ids, t1, GOOD);
    RunsJoin(g, ids, FRESH, events, t1, more, t);
    events := events + more;
    StaysUnapproved(g, n, t1.log, t.log, {});
  }

  // ---------- a segment that goes round every gate ----------

  /** Nothing has failed or paused, and no gate will be asked: those that certainly come have
      succeeded. */
  ghost predicate GoesRound(g: Graph, certain: set<string>, s: Nodes)
    requires g.Keys == s.Keys
  {
    forall m <- g ::
      && (s[m].status.Failed? || s[m].status.Paused? || s[m].status.CascadedPause? ==> false)
      && (m !in certain && g[m].when != "" ==> !s[m].status.Success? && !s[m].status.Running?)
      && (m in certain && IsGate(g[m]) ==> s[m].status.Success?)
  }

  lemma SkippableStep(g: Graph, done: set<string>, c: string) returns (y: string)
    requires c in g && c !in Certain(g, done)
    ensures (y == c || y in Above(g, c)) && y in g && g[y].when != "" && y !in Certain(g, done)
  {
    y :| y in Family(g, c) && y !in done && g[y].when != "";
    assert y in Family(g, y);
  }

  /** No gate acts. */
  lemma NoGateActs(g: Graph, pre: set<string>, done: set<string>, s: Nodes, c: string)
    requires Inv(g, pre, s) && Overtaken(g, pre) == {} && GoesRound(g, Certain(g, done), s)
    requires c in g && IsGate(g[c])
    ensures !s[c].phase.Acting?
  {
    assert NodeInv(g, pre, s, c);
    if s[c].phase.Acting? {
      NothingOvertakenIsClosed(g, pre);
      AboveSucceeded(g, pre, s, c);
      var y := SkippableStep(g, done, c);
    }
  }

  lemma StepGoesRound(g: Graph, pre: set<string>, gate: string, done: set<string>, s: Nodes, n: string)
    requires Inv(g, pre, s) && Overtaken(g, pre) == {} && GoesRound(g, Certain(g, done), s) && Enabled(g, s, n)
    ensures GoesRound(g, Certain(g, done), NodeStep(g, gate, s, n, ALL_SKIPPED))
  {
    if IsGate(g[n]) {
      NoGateActs(g, pre, done, s, n);
    }
    if s[n].phase.Waiting? && s[n].phase.next < |g[n].dependsOn| {
      WaitingGoesRound(g, pre, gate, done, s, n);
    } else {
      ActingGoesRound(g, pre, gate, done, s, n);
    }
  }

  lemma ActingGoesRound(g: Graph, pre: set<string>, gate: string, done: set<string>, s: Nodes, n: string)
    requires Inv(g, pre, s) && GoesRound(g, Certain(g, done), s) && Enabled(g, s, n)
    requires s[n].phase.Waiting? ==> s[n].phase.next >= |g[n].dependsOn|
    requires IsGate(g[n]) ==> !s[n].phase.Acting?
    ensures GoesRound(g, Certain(g, done), NodeStep(g, gate, s, n, ALL_SKIPPED))
  {
    assert NodeInv(g, pre, s, n);
  }

  lemma WaitingGoesRound(g: Graph, pre: set<string>, gate: string, done: set<string>, s: Nodes, n: string)
    requires Inv(g, pre, s) && GoesRound(g, Certain(g, done), s) && Enabled(g, s, n)
    requires s[n].phase.Waiting? && s[n].phase.next < |g[n].dependsOn|
    ensures GoesRound(g, Certain(g, done), NodeStep(g, gate, s, n, ALL_SKIPPED))
  {
    var dep := g[n].dependsOn[s[n].phase.next];
    if s[n].status.Success? && dep in g {
      assert NodeInv(g, pre, s, n);
      DependencyDoesNotBlock(g, pre, s, n, dep);
    }
    var s' := NodeStep(g, gate, s, n, ALL_SKIPPED);
    assert s'[n].status == s[n].status || s'[n].status == CascadedSkip;
    forall m <- g | m != n
      ensures s'[m] == s[m]
    {
    }
  }

  lemma {:induction false} ScheduleGoesRound(g: Graph, pre: set<string>, gate: string, done: set<string>, s: Nodes,
      schedule: seq<string>, s': Nodes)
    requires Inv(g, pre, s) && Overtaken(g, pre) == {} && GoesRound(g, Certain(g, done), s)
    requires Interleaving(g, gate, AllAlike(g, ALL_SKIPPED), s, schedule, s')
    ensures Inv(g, pre, s') && GoesRound(g, Certain(g, done), s')
    decreases |schedule|
  {
    if schedule != [] {
      StepKeepsInv(g, pre, gate, s, schedule[0], ALL_SKIPPED);
      StepGoesRound(g, pre, gate, done, s, schedule[0]);
      ScheduleGoesRound(g, pre, gate, done, NodeStep(g, gate, s, schedule[0], ALL_SKIPPED), schedule[1..], s');
    }
  }

  /** The segment ends as completed, and the analyst is told. */
  lemma EndRound(g: Graph, rank: Ranks, ids: seq<string>, n: string, done: set<string>, t: Task)
      returns (events: seq<Event>, t': Task)
    requires Acyclic(g, rank) && n in g && t.started && t.store.Some? && t.segment.Some? && t.queued > 0
    requires var seg := t.segment.value;
      Inv(g, seg.pre, seg.nodes) && Overtaken(g, seg.pre) == {} && GoesRound(g, Certain(g, done), seg.nodes)
    requires NoneApproved(g, n, t.log)
    ensures Run(g, ids, t, events, t') && AboutToComplete(g, n, t')
  {
    var seg := t.segment.value;
    InvIsSane(g, seg.pre, seg.nodes);
    var schedule, s';
    events, t', schedule, s' := EndSegment(g, rank, ids, t, ALL_SKIPPED);
    ScheduleGoesRound(g, seg.pre, seg.gate, done, seg.nodes, schedule, s');
    StaysUnapproved(g, n, t.log, t'.log, {});
  }

  /** Where all certain steps, and no others, have succeeded, the rest goes round. */
  lemma CalmGoesRound(g: Graph, t: Task, done: set<string>)
    requires Calm(g, t) && Succeeded(t.segment.value.nodes) == Certain(g, done)
    ensures GoesRound(g, Certain(g, done), t.segment.value.nodes)
  {
    forall m | m in Certain(g, done)
      ensures t.segment.value.nodes[m].status.Success?
    {
      assert m in Succeeded(t.segment.value.nodes);
    }
  }

  /** The gate pauses the task, and after a crash it is decided on three times: the first decision
      rejects, and the second one resumes the task, all the same. */
  lemma PauseAndReject(g: Graph, ids: seq<string>, t: Task, p: string) returns (events: seq<Event>, t': Task)
    requires Calm(g, t) && p in g && IsGate(g[p]) && t.segment.value.gate != g[p].humanGate
    requires p !in Succeeded(t.segment.value.nodes) && DepsReady(g, t.segment.value.nodes, p)
    ensures Run(g, ids, t, events, t') && t'.started && t'.store.Some? && t'.queued > 0
    ensures t'.log == t.log + [Approval("")]
    ensures var done := Succeeded(t.segment.value.nodes); t'.segment == Some(Segment("", done, InitialNodes(g, done)))
  {
    var t2, more;
    events, t2 := WalkAndPause(g, ids, t, p);
    more, t' := RejectAndResume(g, ids, t2);
    RunsJoin(g, ids, t, events, t2, more, t');
    events := events + more;
  }

  lemma RejectAndResume(g: Graph, ids: seq<string>, t: Task) returns (events: seq<Event>, t': Task)
    requires t.started && t.store.Some? && t.store.value.gate != "" && !t.store.value.twice
    ensures Run(g, ids, t, events, t') && t'.started && t'.store.Some? && t'.queued > 0
    ensures t'.log == t.log + [Approval("")]
    ensures var st := t.store.value; t'.segment == Some(Segment("", st.completed, InitialNodes(g, st.completed)))
  {
    ThreeMoves(g, ids, t, Crash, PostDecision, PostDecision);
    var t1 := Do(g, ids, Do(g, ids, Do(g, ids, t, Crash), PostDecision), PostDecision);
    ThreeMoves(g, ids, t1, PostDecision, Decide(false), Decide(true));
    t' := Do(g, ids, Do(g, ids, Do(g, ids, t1, PostDecision), Decide(false)), Decide(true));
    RunsJoin(g, ids, t, [Crash, PostDecision, PostDecision], t1, [PostDecision, Decide(false), Decide(true)], t');
    events := [Crash, PostDecision, PostDecision] + [PostDecision, Decide(false), Decide(true)];
  }

  /** Some certain step is a gate, so that the task is stored at a gate when all have succeeded, and
      someone decides then. */
  lemma RoundPastGates(g: Graph, rank: Ranks, ids: seq<string>, n: string, p: string, u: string)
      returns (events: seq<Event>, t: Task)
    requires Acyclic(g, rank) && n in g && GoneRound(g, n, p) && u in Certain(g, Above(g, p)) && IsGate(g[u])
    ensures Reached(g, ids, events, t) && AboutToComplete(g, n, t)
  {
    var S, t0, more := Certain(g, Above(g, p)), FRESH, [];
    CertainIsClosed(g, Above(g, p));
    events, t0 := FromStart(g, rank, ids, n, S);
    StartedWellIsClosed(g, ids, events, t0);
    CalmGoesRound(g, t0, Above(g, p));
    RunOneMore(g, ids, FRESH, events, t0, PostDecision);
    events := events + [PostDecision];
    t0 := Do(g, ids, t0, PostDecision);
    more, t := EndRound(g, rank, ids, n, Above(g, p), t0);
    RunsJoin(g, ids, FRESH, events, t0, more, t);
    events := events + more;
  }

  /** A run without a completion loads closed sets only. */
  ghost predicate ClosedInv(g: Graph, t: Task)
  {
    && (t.store.Some? ==> ClosedUnderDeps(g, t.store.value.completed))
    && (t.segment.Some? ==>
          ClosedUnderDeps(g, t.segment.value.pre) && Inv(g, t.segment.value.pre, t.segment.value.nodes))
  }

  lemma EventKeepsClosed(g: Graph, ids: seq<string>, t: Task, e: Event)
    requires ClosedInv(g, t) && Can(g, t, e) && !e.Complete?
    ensures ClosedInv(g, Do(g, ids, t, e))
  {
    match e
    case Start =>
      ClosedSettles(g, {});
      InitialInv(g, {});
    case NodeMoves(m, o) =>
      var seg := t.segment.value;
      var s' := NodeStep(g, seg.gate, seg.nodes, m, o);
      ClosedSettles(g, seg.pre);
      StepKeepsInv(g, seg.pre, seg.gate, seg.nodes, m, o);
      SavedSetSettles(g, seg.pre, s');
      NothingOvertakenIsClosed(g, Succeeded(s'));
    case Decide(approved) =>
      if t.store.Some? {
        ClosedSettles(g, t.store.value.completed);
        InitialInv(g, t.store.value.completed);
      }
    case _ =>
  }

  lemma {:induction false} RunKeepsClosed(g: Graph, ids: seq<string>, t: Task, events: seq<Event>, t': Task)
    requires ClosedInv(g, t) && Run(g, ids, t, events, t') && forall e <- events :: !e.Complete?
    ensures ClosedInv(g, t')
    decreases |events|
  {
    if events != [] {
      assert events[0] in events && forall e <- events[1..] :: e in events;
      EventKeepsClosed(g, ids, t, events[0]);
      RunKeepsClosed(g, ids, Do(g, ids, t, events[0]), events[1..], t');
    }
  }

  lemma StartedWellIsClosed(g: Graph, ids: seq<string>, events: seq<Event>, t: Task)
    requires Reached(g, ids, events, t) && events != [] && events[0] == Start && GoesWell(events[1..])
    requires t.segment.Some?
    ensures ClosedInv(g, t) && Overtaken(g, t.segment.value.pre) == {}
  {
    forall e <- events
      ensures !e.Complete?
    {
      assert e == events[0] || e in events[1..];
    }
    RunKeepsClosed(g, ids, FRESH, events, t);
    ClosedSettles(g, t.segment.value.pre);
  }

  /** No certain step is a gate, and all of them have succeeded. */
  lemma ReachAsking(g: Graph, rank: Ranks, ids: seq<string>, n: string, p: string)
      returns (events: seq<Event>, t: Task)
    requires Acyclic(g, rank) && n in g && GoneRound(g, n, p) && forall u <- Certain(g, Above(g, p)) :: !IsGate(g[u])
    ensures Reached(g, ids, events, t) && Calm(g, t) && NoneApproved(g, n, t.log) && t.segment.value.gate == ""
    ensures Succeeded(t.segment.value.nodes) == Certain(g, Above(g, p)) && p !in Certain(g, Above(g, p))
    ensures DepsReady(g, t.segment.value.nodes, p)
  {
    CertainIsClosed(g, Above(g, p));
    events, t := FromStart(g, rank, ids, n, Certain(g, Above(g, p)));
    AboveIsCertain(g, rank, p);
    FamilyIsReady(g, rank, t, p);
  }

  /** The gate is asked, rejected, and then skipped. */
  lemma RoundPastRejection(g: Graph, rank: Ranks, ids: seq<string>, n: string, p: string)
      returns (events: seq<Event>, t: Task)
    requires Acyclic(g, rank) && n in g && GoneRound(g, n, p) && forall u <- Certain(g, Above(g, p)) :: !IsGate(g[u])
    ensures Reached(g, ids, events, t) && AboutToComplete(g, n, t)
  {
    var t0, t1, more;
    events, t0 := ReachAsking(g, rank, ids, n, p);
    more, t1 := PauseAndReject(g, ids, t0, p);
    RunsJoin(g, ids, FRESH, events, t0, more, t1);
    events := events + more;
    RejectedStaysUnapproved(g, n, t0.log, t1.log);
    ResumedGoesRound(g, t1, Above(g, p));
    more, t := EndRound(g, rank, ids, n, Above(g, p), t1);
    RunsJoin(g, ids, FRESH, events, t1, more, t);
    events := events + more;
  }

  lemma RejectedStaysUnapproved(g: Graph, n: string, log: seq<Entry>, more: seq<Entry>)
    requires n in g && NoneApproved(g, n, log) && more == log + [Approval("")]
    ensures NoneApproved(g, n, more)
  {
  }

  lemma AboveIsCertain(g: Graph, rank: Ranks, p: string)
    requires Acyclic(g, rank) && p in g
    ensures Above(g, p) <= Certain(g, Above(g, p))
  {
    FamilyRanks(g, rank, p);
    ClosedSettles(g, Above(g, p));
    forall x, y | x in Above(g, p) && y in Family(g, x)
      ensures y in Above(g, p)
    {
      assert y !in Overtaken(g, Above(g, p));
    }
  }

  lemma ResumedGoesRound(g: Graph, t: Task, done: set<string>)
    requires t.segment == Some(Segment("", Certain(g, done), InitialNodes(g, Certain(g, done))))
    ensures var seg := t.segment.value;
      Inv(g, seg.pre, seg.nodes) && Overtaken(g, seg.pre) == {} && GoesRound(g, Certain(g, done), seg.nodes)
  {
    CertainIsClosed(g, done);
    ClosedSettles(g, Certain(g, done));
    InitialInv(g, Certain(g, done));
  }

  // ---------- a task that starts over ----------

  /** The outcome by which a step that may fail writes back what had been loaded. */
  function Unjournaled(step: Step): Outcome
  {
    if IsCall(step) then GOOD.(call := StartNotJournaled) else GOOD.(cond := Fails, skipJournaled := false)
  }

  /** Nodes that do not step stay as they are, and success is final. */
  lemma {:induction false} ScheduleKeeps(g: Graph, pre: set<string>, gate: string, o: Outcome, s: Nodes,
      schedule: seq<string>, s': Nodes)
    requires Inv(g, pre, s) && Interleaving(g, gate, AllAlike(g, o), s, schedule, s')
    ensures Inv(g, pre, s') && Succeeded(s) <= Succeeded(s')
    ensures forall m <- g | m !in schedule :: s'[m] == s[m]
    decreases |schedule|
  {
    if schedule != [] {
      var next := NodeStep(g, gate, s, schedule[0], o);
      StepKeepsInv(g, pre, gate, s, schedule[0], o);
      forall m | m in Succeeded(s)
        ensures m in Succeeded(next)
      {
        SuccessStays(g, pre, gate, s, schedule[0], o, m);
      }
      ScheduleKeeps(g, pre, gate, o, next, schedule[1..], s');
    }
  }

  /** The steps that do not descend from y. */
  ghost function Apart(g: Graph, y: string): set<string>
  {
    set x | x in g && y !in Family(g, x)
  }

  lemma ApartIsClosed(g: Graph, y: string)
    ensures ClosedUnderDeps(g, Apart(g, y)) && Apart(g, y) <= g.Keys
  {
    forall x, d | x in Apart(g, y) && d in g[x].dependsOn && d in g
      ensures d in Apart(g, y)
    {
      FamilyOfDependency(g, x, d);
    }
  }

  /** In the first segment step y can still run, a gate was asked, and two decisions are on their way. */
  ghost predicate Pausing(g: Graph, n: string, y: string, t: Task)
    requires n in g
  {
    && t.started && t.store.Some? && t.queued == 2 && t.segment.Some? && NoneApproved(g, n, t.log)
    && t.segment.value.pre == {} && Inv(g, {}, t.segment.value.nodes)
    && y in g && t.segment.value.nodes[y] == Node(Pending, Waiting(0), 0)
    && Above(g, y) <= Succeeded(t.segment.value.nodes)
  }

  lemma ReachPausing(g: Graph, rank: Ranks, ids: seq<string>, n: string, p: string, y: string)
      returns (events: seq<Event>, t: Task)
    requires Acyclic(g, rank) && n in g && StartsOver(g, p, y)
    ensures Reached(g, ids, events, t) && Pausing(g, n, y, t)
  {
    var t0, more;
    events, t0 := ReachBoth(g, rank, ids, n, p, y);
    FamilyIsReady(g, rank, t0, p);
    more, t := PauseAndPostTwice(g, ids, t0, p, y);
    RunsJoin(g, ids, FRESH, events, t0, more, t);
    events := events + more;
  }

  /** What the gate and the step descend from has succeeded, and no gate is among it. */
  lemma ReachBoth(g: Graph, rank: Ranks, ids: seq<string>, n: string, p: string, y: string)
      returns (events: seq<Event>, t: Task)
    requires Acyclic(g, rank) && n in g && StartsOver(g, p, y)
    ensures Reached(g, ids, events, t) && Calm(g, t) && ClosedInv(g, t) && NoneApproved(g, n, t.log)
    ensures Succeeded(t.segment.value.nodes) == Above(g, p) + Above(g, y)
    ensures p !in Above(g, p) + Above(g, y) && y !in Above(g, p) + Above(g, y)
    ensures t.segment.value.gate == "" && t.segment.value.pre == {} && t.queued == 0
  {
    var S := Above(g, p) + Above(g, y);
    FamilyRanks(g, rank, p);
    FamilyRanks(g, rank, y);
    assert forall x <- Above(g, y) :: !GateAncestor(g, y, x);
    assert forall x <- S :: !IsGate(g[x]);
    events, t := FromStart(g, rank, ids, n, S);
    StartedWellIsClosed(g, ids, events, t);
  }

  /** The gate pauses the task, and two people decide. */
  lemma PauseAndPostTwice(g: Graph, ids: seq<string>, t: Task, p: string, y: string)
      returns (events: seq<Event>, t': Task)
    requires Calm(g, t) && ClosedInv(g, t) && p in g && IsGate(g[p]) && t.segment.value.gate != g[p].humanGate
    requires p !in Succeeded(t.segment.value.nodes) && DepsReady(g, t.segment.value.nodes, p)
    requires y in g && y != p && y !in Succeeded(t.segment.value.nodes) && t.queued == 0
    ensures Run(g, ids, t, events, t') && t'.started && t'.store.Some? && t'.queued == 2 && t'.log == t.log
    ensures t'.segment.Some? && t'.segment.value.pre == t.segment.value.pre
    ensures Inv(g, t.segment.value.pre, t'.segment.value.nodes)
    ensures t'.segment.value.nodes[y] == Node(Pending, Waiting(0), 0)
    ensures Succeeded(t.segment.value.nodes) <= Succeeded(t'.segment.value.nodes)
  {
    events, t' := WalkAndPause(g, ids, t, p);
    RunKeepsClosed(g, ids, t, events, t');
    RunOneMore(g, ids, t, events, t', PostDecision);
    events, t' := events + [PostDecision], Do(g, ids, t', PostDecision);
    RunOneMore(g, ids, t, events, t', PostDecision);
    events, t' := events + [PostDecision], Do(g, ids, t', PostDecision);
  }

  /** The steps that do not descend from y come to their end. */
  lemma DrainApart(g: Graph, rank: Ranks, ids: seq<string>, n: string, y: string, t: Task)
      returns (events: seq<Event>, t': Task)
    requires Acyclic(g, rank) && n in g && Pausing(g, n, y, t)
    ensures Run(g, ids, t, events, t') && Pausing(g, n, y, t')
    ensures forall x <- Apart(g, y) :: t'.segment.value.nodes[x].phase.Returned?
  {
    var seg := t.segment.value;
    InvIsSane(g, seg.pre, seg.nodes);
    ApartIsClosed(g, y);
    var schedule, s' := EveryRunCanEnd(g, rank, seg.gate, AllAlike(g, GOOD), seg.nodes, Apart(g, y));
    t' := ScheduleIsRun(g, ids, t, GOOD, schedule, s');
    events := Moves(schedule, GOOD);
    ScheduleKeeps(g, seg.pre, seg.gate, GOOD, seg.nodes, schedule, s');
    assert y in Family(g, y);
    StaysUnapproved(g, n, t.log, t'.log, {});
  }

  /** Only steps that descend from y, which has failed, have not returned. */
  ghost predicate Draining(g: Graph, y: string, s: Nodes)
  {
    && Inv(g, {}, s) && y in g && s[y].status.Failed?
    && forall x <- Apart(g, y) :: s[x].phase.Returned?
  }

  /** Step y fails without being journaled, and what had been loaded is written back. */
  lemma FailUnjournaled(g: Graph, rank: Ranks, ids: seq<string>, n: string, y: string, t: Task)
      returns (events: seq<Event>, t': Task)
    requires Acyclic(g, rank) && n in g && Pausing(g, n, y, t) && MayFail(g[y]) && !IsGate(g[y])
    requires forall x <- Apart(g, y) :: t.segment.value.nodes[x].phase.Returned?
    ensures Run(g, ids, t, events, t') && t'.started && t'.queued == 2 && t'.segment.Some? && t'.log == t.log
    ensures t'.store == Some(Saved("", {}, false)) && t'.segment.value.pre == {}
    ensures Draining(g, y, t'.segment.value.nodes)
  {
    var t1, more;
    events, t1 := WalkToEnd(g, rank, ids, y, t);
    more, t' := FailNow(g, ids, t1, y);
    RunsJoin(g, ids, t, events, t1, more, t');
    events := events + more;
    assert y in Family(g, y);
  }

  lemma WalkToEnd(g: Graph, rank: Ranks, ids: seq<string>, y: string, t: Task) returns (events: seq<Event>, t': Task)
    requires Acyclic(g, rank) && t.segment.Some? && t.segment.value.pre == {} && Inv(g, {}, t.segment.value.nodes)
    requires y in g && t.segment.value.nodes[y] == Node(Pending, Waiting(0), 0)
    requires Above(g, y) <= Succeeded(t.segment.value.nodes)
    requires forall x <- Apart(g, y) :: t.segment.value.nodes[x].phase.Returned?
    ensures Run(g, ids, t, events, t') && t' == At(t, y, Node(Pending, Waiting(|g[y].dependsOn|), 0))
    ensures Inv(g, {}, t'.segment.value.nodes)
  {
    ReadyToWalk(g, rank, y, t);
    events := Walk(g, ids, t, y, 0);
    t' := At(t, y, Node(Pending, Waiting(|g[y].dependsOn|), 0));
    RunKeepsInv(g, ids, t, events, t');
  }

  lemma ReadyToWalk(g: Graph, rank: Ranks, y: string, t: Task)
    requires Acyclic(g, rank) && t.segment.Some? && Inv(g, {}, t.segment.value.nodes) && y in g
    requires Above(g, y) <= Succeeded(t.segment.value.nodes)
    requires forall x <- Apart(g, y) :: t.segment.value.nodes[x].phase.Returned?
    ensures DepsReady(g, t.segment.value.nodes, y)
  {
    FamilyRanks(g, rank, y);
    forall d | d in g[y].dependsOn && d in g
      ensures t.segment.value.nodes[d].status.Success? && t.segment.value.nodes[d].closes == 1
    {
      assert d in Above(g, y) && NodeInv(g, {}, t.segment.value.nodes, d);
      if y in Family(g, d) {
        FamilyHasNoCycle(g, rank, y, d);
      }
    }
  }

  lemma FamilyHasNoCycle(g: Graph, rank: Ranks, y: string, d: string)
    requires Acyclic(g, rank) && y in g && d in g && d in g[y].dependsOn
    ensures y !in Family(g, d)
  {
    forall path | EndsAt(g, g[d].dependsOn, path, y)
      ensures false
    {
      PathDescends(g, rank, d, path, |path| - 1);
    }
  }

  /** Moves of one segment keep its invariant. */
  lemma {:induction false} RunKeepsInv(g: Graph, ids: seq<string>, t: Task, events: seq<Event>, t': Task)
    requires Run(g, ids, t, events, t') && t.segment.Some? && Inv(g, t.segment.value.pre, t.segment.value.nodes)
    requires forall e <- events :: e.NodeMoves?
    ensures t'.segment.Some? && t'.segment.value.pre == t.segment.value.pre
    ensures Inv(g, t.segment.value.pre, t'.segment.value.nodes)
    decreases |events|
  {
    if events != [] {
      var seg, e := t.segment.value, events[0];
      assert e in events && forall x <- events[1..] :: x in events;
      StepKeepsInv(g, seg.pre, seg.gate, seg.nodes, e.node, e.outcome);
      RunKeepsInv(g, ids, Do(g, ids, t, e), events[1..], t');
    }
  }

  lemma FailNow(g: Graph, ids: seq<string>, t: Task, y: string) returns (events: seq<Event>, t': Task)
    requires t.segment.Some? && Inv(g, {}, t.segment.value.nodes) && t.segment.value.pre == {}
    requires y in g && MayFail(g[y]) && !IsGate(g[y])
    requires t.segment.value.nodes[y] == Node(Pending, Waiting(|g[y].dependsOn|), 0)
    ensures Run(g, ids, t, events, t') && t'.started == t.started && t'.queued == t.queued && t'.log == t.log
    ensures t'.segment.Some? && t'.segment.value.pre == {} && Inv(g, {}, t'.segment.value.nodes)
    ensures t'.store == Some(Saved("", {}, false)) && t'.segment.value.nodes[y].status.Failed?
    ensures forall x <- g | x != y :: t'.segment.value.nodes[x] == t.segment.value.nodes[x]
  {
    var fail := NodeMoves(y, Unjournaled(g[y]));
    if IsCall(g[y]) {
      var t1 := Do(g, ids, t, NodeMoves(y, GOOD));
      t' := Do(g, ids, t1, fail);
      RunFirst(g, ids, t1, fail, [], t');
      RunFirst(g, ids, t, NodeMoves(y, GOOD), [fail] + [], t');
      events := [NodeMoves(y, GOOD)] + ([fail] + []);
    } else {
      t' := Do(g, ids, t, fail);
      RunFirst(g, ids, t, fail, [], t');
      events := [fail] + [];
    }
    RunKeepsInv(g, ids, t, events, t');
  }

  /** No gate acts any more, and the store stays as it is. */
  lemma DrainKeeps(g: Graph, ids: seq<string>, y: string, t: Task, m: string)
    requires t.segment.Some? && t.segment.value.pre == {} && Draining(g, y, t.segment.value.nodes)
    requires t.store.Some? && Can(g, t, NodeMoves(m, GOOD))
    ensures var t' := Do(g, ids, t, NodeMoves(m, GOOD));
      Draining(g, y, t'.segment.value.nodes) && t'.store == t.store
  {
    var seg := t.segment.value;
    StepKeepsInv(g, {}, seg.gate, seg.nodes, m, GOOD);
    assert NodeInv(g, {}, seg.nodes, y) && NodeInv(g, {}, seg.nodes, m);
    assert m in Apart(g, y) || m == y || y in Above(g, m);
    if seg.nodes[m].phase.Acting? {
      ClosedSettles(g, {});
      AboveSucceeded(g, {}, seg.nodes, m);
    }
  }

  lemma {:induction false} ScheduleDrains(g: Graph, ids: seq<string>, y: string, t: Task, schedule: seq<string>,
      t': Task)
    requires t.segment.Some? && t.segment.value.pre == {} && Draining(g, y, t.segment.value.nodes) && t.store.Some?
    requires Run(g, ids, t, Moves(schedule, GOOD), t')
    ensures t'.store == t.store
    decreases |schedule|
  {
    if schedule != [] {
      DrainKeeps(g, ids, y, t, schedule[0]);
      ScheduleDrains(g, ids, y, Do(g, ids, t, NodeMoves(schedule[0], GOOD)), schedule[1..], t');
    }
  }

  /** The segment ends, and what was written back is still stored. */
  lemma DrainToEnd(g: Graph, rank: Ranks, ids: seq<string>, y: string, t: Task) returns (events: seq<Event>, t': Task)
    requires Acyclic(g, rank) && t.started && t.store.Some?
    requires t.segment.Some? && t.segment.value.pre == {} && Draining(g, y, t.segment.value.nodes)
    ensures Run(g, ids, t, events, t') && t'.started && t'.queued == t.queued && t'.store == t.store
    ensures t'.segment.None? && t.log <= t'.log && forall e <- t'.log[|t.log|..] :: e.Call?
  {
    var seg := t.segment.value;
    InvIsSane(g, {}, seg.nodes);
    var schedule, s' := EveryRunCanEnd(g, rank, seg.gate, AllAlike(g, GOOD), seg.nodes, g.Keys);
    var t1 := ScheduleIsRun(g, ids, t, GOOD, schedule, s');
    ScheduleDrains(g, ids, y, t, schedule, t1);
    RunOneMore(g, ids, t, Moves(schedule, GOOD), t1, SegmentEnds);
    events, t' := Moves(schedule, GOOD) + [SegmentEnds], Do(g, ids, t1, SegmentEnds);
  }

  /** The segment ends, and one of the decisions resumes the task from nothing. */
  lemma StartAgain(g: Graph, rank: Ranks, ids: seq<string>, n: string, y: string, t: Task)
      returns (events: seq<Event>, t': Task)
    requires Acyclic(g, rank) && n in g && t.started && t.queued == 2 && NoneApproved(g, n, t.log)
    requires t.segment.Some? && t.segment.value.pre == {} && Draining(g, y, t.segment.value.nodes)
    requires t.store == Some(Saved("", {}, false))
    ensures Run(g, ids, t, events, t') && t'.started && t'.queued == 1 && t'.store == t.store
    ensures t'.segment == Some(Segment("", {}, InitialNodes(g, {}))) && NoneApproved(g, n, t'.log)
  {
    var t1;
    events, t1 := DrainToEnd(g, rank, ids, y, t);
    StaysUnapproved(g, n, t.log, t1.log, {});
    RunOneMore(g, ids, t, events, t1, Decide(true));
    events, t' := events + [Decide(true)], Do(g, ids, t1, Decide(true));
    RejectedStaysUnapproved(g, n, t1.log, t'.log);
  }

  lemma ReachAgain(g: Graph, rank: Ranks, ids: seq<string>, n: string, p: string, y: string)
      returns (events: seq<Event>, t: Task)
    requires Acyclic(g, rank) && n in g && StartsOver(g, p, y)
    ensures Reached(g, ids, events, t) && t.started && t.queued == 1 && t.store.Some? && NoneApproved(g, n, t.log)
    ensures t.segment == Some(Segment("", {}, InitialNodes(g, {})))
  {
    var t0, t1, more;
    events, t0 := ReachPausing(g, rank, ids, n, p, y);
    more, t1 := DrainApart(g, rank, ids, n, y, t0);
    RunsJoin(g, ids, FRESH, events, t0, more, t1);
    events := events + more;
    more, t0 := FailUnjournaled(g, rank, ids, n, y, t1);
    RunsJoin(g, ids, FRESH, events, t1, more, t0);
    events := events + more;
    more, t := StartAgain(g, rank, ids, n, y, t0);
    RunsJoin(g, ids, FRESH, events, t0, more, t);
    events := events + more;
  }

  /** The task starts over, goes round every gate, and ends as completed. */
  lemma RoundFromNothing(g: Graph, rank: Ranks, ids: seq<string>, n: string, p: string, y: string)
      returns (events: seq<Event>, t: Task)
    requires Acyclic(g, rank) && n in g && NoCertainGate(g) && StartsOver(g, p, y)
    ensures Reached(g, ids, events, t) && AboutToComplete(g, n, t)
  {
    var t0, more;
    events, t0 := ReachAgain(g, rank, ids, n, p, y);
    ClosedSettles(g, {});
    InitialInv(g, {});
    more, t := EndRound(g, rank, ids, n, {}, t0);
    RunsJoin(g, ids, FRESH, events, t0, more, t);
    events := events + more;
  }

  // ---------- from a completion on ----------

  /** From a completion a step that descends from no gate through unlisted steps is called. */
  lemma CallAfterCompletion(g: Graph, rank: Ranks, ids: seq<string>, t: Task, n: string)
      returns (events: seq<Event>, t': Task)
    requires Acyclic(g, rank) && n in g && IsToolCall(g[n]) && n !in ids
    requires forall a :: !GateAncestor(Rest(g, ids), n, a)
    requires t.started && t.segment.None? && t.queued > 0 && t.store == Some(Saved("", AsSet(ids), false))
    ensures Run(g, ids, t, events, t') && t.log <= t'.log
    ensures Call(n) in t'.log[|t.log|..] && forall e <- t'.log[|t.log|..] :: e.Call? || e == Approval("")
  {
    var t1 := ResumeListed(g, ids, t);
    UnlistedRegion(g, ids, t1, n);
    var rest;
    rest, t' := BringRegion(g, rank, ids, t1, Family(Rest(g, ids), n));
    RunFirst(g, ids, t, Decide(true), rest, t');
    events := [Decide(true)] + rest;
    NewEntries(t.log, t1.log, t'.log);
  }

  lemma NewEntries(before: seq<Entry>, approved: seq<Entry>, after: seq<Entry>)
    requires approved == before + [Approval("")] && approved <= after
    ensures before <= after && after[|before|..] == [Approval("")] + after[|approved|..]
  {
  }

  lemma ResumeListed(g: Graph, ids: seq<string>, t: Task) returns (t': Task)
    requires t.started && t.segment.None? && t.queued > 0 && t.store == Some(Saved("", AsSet(ids), false))
    ensures Can(g, t, Decide(true)) && t' == Do(g, ids, t, Decide(true)) && Calm(g, t')
    ensures t'.log == t.log + [Approval("")]
    ensures forall x :: x in Succeeded(t'.segment.value.nodes) <==> x in AsSet(ids) && x in g
  {
    t' := Do(g, ids, t, Decide(true));
    InitialSucceeded(g, AsSet(ids));
  }

  /** What an unlisted step descends from through unlisted steps, the listed steps having succeeded. */
  lemma UnlistedRegion(g: Graph, ids: seq<string>, t: Task, n: string)
    requires t.segment.Some? && n in g && n !in ids && !IsGate(g[n]) && forall a :: !GateAncestor(Rest(g, ids), n, a)
    requires forall x :: x in Succeeded(t.segment.value.nodes) <==> x in AsSet(ids) && x in g
    ensures Region(g, t, Family(Rest(g, ids), n)) && n in Family(Rest(g, ids), n) &&
        n !in Succeeded(t.segment.value.nodes)
    ensures forall x <- Family(Rest(g, ids), n) :: !IsGate(g[x])
  {
    var r := Rest(g, ids);
    FamilyIsRegion(r, n);
    assert forall x <- Family(r, n) :: x == n || !GateAncestor(r, n, x);
    forall x, d | x in Family(r, n) && d in g[x].dependsOn && d in g
      ensures d in Family(r, n) || d in Succeeded(t.segment.value.nodes)
    {
      assert d in r || d in AsSet(ids);
    }
  }

  /** The completion replaces what was stored, the decision resumes the task, and n is called. */
  lemma CompletionRunsUnapproved(g: Graph, rank: Ranks, ids: seq<string>, n: string, before: seq<Event>, t0: Task)
      returns (events: seq<Event>, t: Task)
    requires Acyclic(g, rank) && n in g && IsToolCall(g[n]) && !NamesTwice(g, ids) && ids != []
    requires n !in ids && forall b :: !GateAncestor(Rest(g, ids), n, b)
    requires Reached(g, ids, before, t0) && AboutToComplete(g, n, t0)
    ensures Reached(g, ids, events, t) && !ApprovedWhenCalled(g, t.log, n)
  {
    RunOneMore(g, ids, FRESH, before, t0, Complete);
    var t1, more := Do(g, ids, t0, Complete), [];
    more, t := CallAfterCompletion(g, rank, ids, t1, n);
    RunsJoin(g, ids, FRESH, before + [Complete], t1, more, t);
    events := before + [Complete] + more;
    var q :| 0 <= q < |t.log[|t1.log|..]| && t.log[|t1.log|..][q] == Call(n);
    var p := |t1.log| + q;
    assert t.log[..p][|t1.log|..] <= t.log[|t1.log|..];
    StaysUnapproved(g, n, t1.log, t.log[..p], {});
    assert t.log[p] == Call(n);
  }

  /** A run to a completion before any approval above n: an analyst step asks for it, or the task ends. */
  lemma ReachCompletion(g: Graph, rank: Ranks, ids: seq<string>, n: string)
      returns (events: seq<Event>, t: Task)
    requires Acyclic(g, rank) && n in g && (exists a :: GateAncestor(g, n, a)) && CompletesFirst(g, n)
    ensures Reached(g, ids, events, t) && AboutToComplete(g, n, t)
  {
    if a :| TellsApart(g, n, a) {
      var h := TopmostGate(g, rank, n);
      events, t := ToldAndQueued(g, rank, ids, n, h, a);
    } else if p :| GoneRound(g, n, p) {
      if u :| u in Certain(g, Above(g, p)) && IsGate(g[u]) {
        events, t := RoundPastGates(g, rank, ids, n, p, u);
      } else {
        events, t := RoundPastRejection(g, rank, ids, n, p);
      }
    } else {
      var p, y :| StartsOver(g, p, y);
      events, t := RoundFromNothing(g, rank, ids, n, p, y);
    }
  }

  /** No completion can stand between step n and all the gates it descends from: the step is listed,
      or a gate lies past the listed steps, or nothing is resumed from the list, or no completion that
      is resumed from comes before an approval above n. */
  ghost predicate CompletesSafely(g: Graph, ids: seq<string>, n: string)
    requires n in g
  {
    GatedPastCompletion(g, ids, n) || NamesTwice(g, ids) || !CompletesFirst(g, n)
  }

  /** A tool step is called only past an approval of a gate it descends from, in every run, if and
      only if there is such a gate and no completion can stand between them. */
  lemma CallsAreApprovedExactly(g: Graph, rank: Ranks, ids: seq<string>, n: string)
    requires Acyclic(g, rank) && n in g && IsToolCall(g[n]) && ListSettles(g, ids)
    ensures (exists a :: GateAncestor(g, n, a)) && CompletesSafely(g, ids, n)
       <==> (forall events, t | Reached(g, ids, events, t) :: ApprovedWhenCalled(g, t.log, n))
  {
    if !exists a :: GateAncestor(g, n, a) {
      var events, t := UngatedRunsUnapproved(g, rank, ids, n);
      var p :| 0 <= p < |t.log| && t.log[p] == Call(n);
      UnapprovedCallIsSeen(g, t.log, n, p);
    } else if CompletesSafely(g, ids, n) {
      forall events, t | Reached(g, ids, events, t)
        ensures ApprovedWhenCalled(g, t.log, n)
      {
        SafelyCompletedIsApproved(g, rank, ids, n, events, t);
      }
    } else {
      assert ids == [] ==> Rest(g, ids) == g;
      var events, t := ReachCompletion(g, rank, ids, n);
      events, t := CompletionRunsUnapproved(g, rank, ids, n, events, t);
    }
  }

  lemma SafelyCompletedIsApproved(g: Graph, rank: Ranks, ids: seq<string>, n: string, events: seq<Event>, t: Task)
    requires Acyclic(g, rank) && n in g && ListSettles(g, ids) && Reached(g, ids, events, t)
    requires (exists a :: GateAncestor(g, n, a)) && CompletesSafely(g, ids, n)
    ensures ApprovedWhenCalled(g, t.log, n)
  {
    if GatedPastCompletion(g, ids, n) {
      GatedIsApproved(g, ids, events, t, n);
    } else if NamesTwice(g, ids) {
      RunKeepsTwice(g, ids, n, FRESH, events, t);
    } else {
      RunKeepsApart(g, rank, ids, n, FRESH, events, t);
    }
  }

  /** What the check's acceptance of a DAG means for a guarded tool step, exactly. */
  lemma AcceptedDagIsSafeExactly(pipe: Pipeline, tools: map<string, ToolMode>, rank: Ranks, n: string)
    requires pipe.dag && Safe(pipe, tools) && NamesAgree(pipe.steps) && NoAgentGates(pipe.steps)
    requires n in NodeMap(pipe.steps) && Guarded(NodeMap(pipe.steps)[n], tools)
    requires IsToolCall(NodeMap(pipe.steps)[n]) && Acyclic(NodeMap(pipe.steps), rank)
    requires ListSettles(NodeMap(pipe.steps), CompletionIDs(pipe.steps))
    ensures var g, ids := NodeMap(pipe.steps), CompletionIDs(pipe.steps);
      CompletesSafely(g, ids, n) <==>
        (forall events, t | Reached(g, ids, events, t) :: ApprovedWhenCalled(g, t.log, n))
  {
    AcceptedHasGate(pipe, tools, n);
    CallsAreApprovedExactly(NodeMap(pipe.steps), rank, CompletionIDs(pipe.steps), n);
  }

  // ---------- two accepted pipelines that pay past a completion ----------

  const ASK := BLANK.(id := "ask", humanGate := "manager", when := "risky")
  const SUM := BLANK.(id := "sum", analyst := true, dependsOn := ["ask"])
  const PAY := BLANK.(id := "pay", tool := "pay", dependsOn := ["ask"])
  const ASK_SUM_PAY: Graph := map["ask" := ASK, "sum" := SUM, "pay" := PAY]

  lemma OneMoreStep(steps: seq<Step>, step: Step)
    ensures NodeMap(steps + [step]) == NodeMap(steps)[NodeName(step) := step]
    ensures LabelMap(steps + [step]) == LabelMap(steps)[StepLabel(step, |steps|) := step]
  {
    assert (steps + [step])[..|steps|] == steps;
  }

  lemma AskSumPay()
    ensures var steps := [ASK, SUM, PAY];
      && NodeMap(steps) == ASK_SUM_PAY && LabelMap(steps) == ASK_SUM_PAY && CompletionIDs(steps) == ["ask"]
      && NamesAgree(steps) && NoAgentGates(steps)
  {
    var steps := [ASK, SUM, PAY];
    TwoSteps(ASK, SUM);
    OneMoreStep([ASK, SUM], PAY);
    assert steps == [ASK, SUM] + [PAY];
    assert FirstAnalyst(steps) == 1 && steps[..1] == [ASK];
    assert StepIDs([ASK]) == ["ask"];
  }

  /** The check accepts a pipeline whose only guarded step depends on a gate. */
  lemma GatedPaymentIsAccepted(steps: seq<Step>, i: nat)
    requires i < |steps| && "ask" in steps[i].dependsOn
    requires forall j | 0 <= j < |steps| && j != i :: steps[j].tool != "pay"
    requires var g := LabelMap(steps); "ask" in g && g["ask"].humanGate != ""
    ensures Safe(Pipeline(true, steps), PAY_TOOL)
  {
    var g := LabelMap(steps);
    assert EndsAt(g, steps[i].dependsOn, ["ask"], "ask");
    assert Ancestor(g, steps[i].dependsOn, "ask");
    assert Approved(Pipeline(true, steps), i);
  }

  lemma AskIsAlone(g: Graph)
    requires g == ASK_SUM_PAY
    ensures Family(g, "ask") == {"ask"} && GateAncestor(g, "pay", "ask") && GoneRound(g, "pay", "ask")
  {
    assert EndsAt(g, g["pay"].dependsOn, ["ask"], "ask") && EndsAt(g, g["sum"].dependsOn, ["ask"], "ask");
    assert "ask" in Family(g, "ask") && "ask" in Family(g, "sum") && "ask" in Family(g, "pay");
    assert Above(g, "ask") == {};
  }

  lemma PayAfterCompletion(g: Graph, rank: Ranks, ids: seq<string>) returns (events: seq<Event>, t: Task)
    requires Acyclic(g, rank) && "pay" in g && IsToolCall(g["pay"]) && ids != [] && !NamesTwice(g, ids)
    requires "pay" !in ids && "ask" in ids && g["pay"].dependsOn == ["ask"] && GateAncestor(g, "pay", "ask")
    requires CompletesFirst(g, "pay")
    ensures Reached(g, ids, events, t) && !ApprovedWhenCalled(g, t.log, "pay")
  {
    events, t := ReachCompletion(g, rank, ids, "pay");
    events, t := CompletionRunsUnapproved(g, rank, ids, "pay", events, t);
  }

  lemma AskSumPayPipeline() returns (pipe: Pipeline)
    ensures pipe.dag && Safe(pipe, PAY_TOOL) && NamesAgree(pipe.steps) && NoAgentGates(pipe.steps)
    ensures NodeMap(pipe.steps) == ASK_SUM_PAY && CompletionIDs(pipe.steps) == ["ask"]
  {
    pipe := Pipeline(true, [ASK, SUM, PAY]);
    AskSumPay();
    GatedPaymentIsAccepted(pipe.steps, 2);
  }

  lemma PayPastRejection(g: Graph, ids: seq<string>) returns (events: seq<Event>, t: Task)
    requires g == ASK_SUM_PAY && ids == ["ask"]
    ensures Reached(g, ids, events, t) && !ApprovedWhenCalled(g, t.log, "pay")
  {
    AskIsAlone(g);
    events, t := PayAfterCompletion(g, map["ask" := 0, "sum" := 1, "pay" := 1], ids);
  }

  /** The check accepts a payment behind a conditional gate. When the gate is rejected, the next run
      skips it, and the task ends as completed; an approval that is still queued then pays. */
  lemma AcceptedPipelinePaysPastCompletion() returns (pipe: Pipeline, events: seq<Event>, t: Task)
    ensures pipe.dag && Safe(pipe, PAY_TOOL) && NamesAgree(pipe.steps) && NoAgentGates(pipe.steps)
    ensures Reached(NodeMap(pipe.steps), CompletionIDs(pipe.steps), events, t)
    ensures "pay" in NodeMap(pipe.steps) && !ApprovedWhenCalled(NodeMap(pipe.steps), t.log, "pay")
  {
    pipe := AskSumPayPipeline();
    events, t := PayPastRejection(NodeMap(pipe.steps), CompletionIDs(pipe.steps));
  }

  const HOLD := BLANK.(id := "hold", humanGate := "other")
  const SCAN := BLANK.(id := "scan", tool := "scan", when := "new")
  const ASK_ALL := BLANK.(id := "ask", humanGate := "manager", dependsOn := ["scan"])
  const FIVE: Graph := map["hold" := HOLD, "scan" := SCAN, "ask" := ASK_ALL, "sum" := SUM, "pay" := PAY]

  lemma Five()
    ensures var steps := [HOLD, SCAN, ASK_ALL, SUM, PAY];
      && NodeMap(steps) == FIVE && LabelMap(steps) == FIVE && CompletionIDs(steps) == ["hold", "scan", "ask"]
      && NamesAgree(steps) && NoAgentGates(steps)
  {
    var steps := [HOLD, SCAN, ASK_ALL, SUM, PAY];
    TwoSteps(HOLD, SCAN);
    OneMoreStep([HOLD, SCAN], ASK_ALL);
    OneMoreStep([HOLD, SCAN, ASK_ALL], SUM);
    OneMoreStep([HOLD, SCAN, ASK_ALL, SUM], PAY);
    assert [HOLD, SCAN] + [ASK_ALL] == [HOLD, SCAN, ASK_ALL];
    assert [HOLD, SCAN, ASK_ALL] + [SUM] == [HOLD, SCAN, ASK_ALL, SUM];
    assert [HOLD, SCAN, ASK_ALL, SUM] + [PAY] == steps;
    FiveAreListed();
  }

  lemma FiveAreListed()
    ensures CompletionIDs([HOLD, SCAN, ASK_ALL, SUM, PAY]) == ["hold", "scan", "ask"]
  {
    var steps := [HOLD, SCAN, ASK_ALL, SUM, PAY];
    assert !steps[0].analyst && !steps[1].analyst && !steps[2].analyst && steps[3].analyst;
    assert FirstAnalyst(steps) == 3 && steps[..3] == [HOLD, SCAN, ASK_ALL];
    assert StepIDs([HOLD, SCAN, ASK_ALL]) == ["hold", "scan", "ask"];
  }

  lemma HoldIsGoneRound(g: Graph)
    requires g == FIVE
    ensures GateAncestor(g, "pay", "ask") && GoneRound(g, "pay", "hold")
  {
    assert EndsAt(g, g["pay"].dependsOn, ["ask"], "ask") && EndsAt(g, g["ask"].dependsOn, ["scan"], "scan");
    assert "scan" in Family(g, "ask") && "scan" !in Above(g, "hold");
    forall c | c in Certain(g, Above(g, "hold"))
      ensures !NamedLikeGate(g, "pay", c)
    {
      PayHasOneGate(g);
    }
  }

  lemma PayHasOneGate(g: Graph)
    requires g == FIVE
    ensures forall a | GateAncestor(g, "pay", a) :: a == "ask"
  {
    forall a, path | EndsAt(g, g["pay"].dependsOn, path, a) && IsGate(g[a])
      ensures a == "ask"
    {
      if |path| > 1 {
        ChainTail(g, g["pay"].dependsOn, path);
        assert path[1] == "scan";
        if |path| > 2 {
          ChainTail(g, g["ask"].dependsOn, path[1..]);
        }
      }
    }
  }

  lemma FivePipeline() returns (pipe: Pipeline)
    ensures pipe.dag && Safe(pipe, PAY_TOOL) && NamesAgree(pipe.steps) && NoAgentGates(pipe.steps)
    ensures NodeMap(pipe.steps) == FIVE && CompletionIDs(pipe.steps) == ["hold", "scan", "ask"]
  {
    pipe := Pipeline(true, [HOLD, SCAN, ASK_ALL, SUM, PAY]);
    Five();
    GatedPaymentIsAccepted(pipe.steps, 4);
  }

  lemma PayPastHold(g: Graph, ids: seq<string>) returns (events: seq<Event>, t: Task)
    requires g == FIVE && ids == ["hold", "scan", "ask"]
    ensures Reached(g, ids, events, t) && !ApprovedWhenCalled(g, t.log, "pay")
  {
    HoldIsGoneRound(g);
    events, t := PayAfterCompletion(g, map["hold" := 0, "scan" := 0, "ask" := 1, "sum" := 2, "pay" := 2], ids);
  }

  /** And one behind an unconditional gate that a conditional step leads to: another gate is approved,
      that step is skipped, and the task ends as completed; a second approval of the other gate pays. */
  lemma AcceptedPipelinePaysPastOtherGate() returns (pipe: Pipeline, events: seq<Event>, t: Task)
    ensures pipe.dag && Safe(pipe, PAY_TOOL) && NamesAgree(pipe.steps) && NoAgentGates(pipe.steps)
    ensures Reached(NodeMap(pipe.steps), CompletionIDs(pipe.steps), events, t)
    ensures "pay" in NodeMap(pipe.steps) && !ApprovedWhenCalled(NodeMap(pipe.steps), t.log, "pay")
  {
    pipe := FivePipeline();
    events, t := PayPastHold(NodeMap(pipe.steps), CompletionIDs(pipe.steps));
  }
}
