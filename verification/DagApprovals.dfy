/** While no gate above a step of a DAG has been approved: what a task can load and store, and when the
    analyst's completion can come before the approval. */
module DagApprovals {
  import opened Pipelines
  import opened PipelineSafety
  import opened DagExecution
  import opened DagTask

  // ---------- when a completion can come before an approval ----------

  /** None of the gates that n descends from has been approved. */
  ghost predicate NoneApproved(g: Graph, n: string, log: seq<Entry>)
    requires n in g
  {
    forall a | GateAncestor(g, n, a) :: Approval(g[a].humanGate) !in log
  }

  /** Gate c has the name of a gate that n descends from. */
  ghost predicate NamedLikeGate(g: Graph, n: string, c: string)
    requires n in g
  {
    c in g && IsGate(g[c]) && exists a :: GateAncestor(g, n, a) && g[a].humanGate == g[c].humanGate
  }

  /** An analyst step past which a run can go before any gate above n is approved. */
  ghost predicate TellsApart(g: Graph, n: string, a: string)
    requires n in g
  {
    a in g && IsTelling(g[a]) && forall c | GateAncestor(g, a, c) :: !NamedLikeGate(g, n, c)
  }

  /** The steps that no condition can keep from running, once those in done have succeeded. */
  ghost function Certain(g: Graph, done: set<string>): set<string>
  {
    set x | x in g && forall y <- Family(g, x) :: y in done || g[y].when == ""
  }

  /** What a step descends from. */
  ghost function Above(g: Graph, p: string): set<string>
    requires p in g
  {
    Family(g, p) - {p}
  }

  /** Once gate p has been asked, the task can end as completed with no approval above n: the gates
      that no condition can keep from being asked have other names. */
  ghost predicate GoneRound(g: Graph, n: string, p: string)
    requires n in g
  {
    p in g && IsGate(g[p]) && forall c <- Certain(g, Above(g, p)) :: !NamedLikeGate(g, n, c)
  }

  /** In the first segment gate p can be asked, and then the failure of step y to be journaled makes
      the task start over. */
  ghost predicate StartsOver(g: Graph, p: string, y: string)
  {
    && p in g && IsGate(g[p]) && (forall x <- Above(g, p) :: !IsGate(g[x]))
    && y in g && Ungated(g, y) && MayFail(g[y]) && y !in Family(g, p)
  }

  /** No gate is certain to be asked. */
  ghost predicate NoCertainGate(g: Graph)
  {
    forall u <- Certain(g, {}) :: !IsGate(g[u])
  }

  /** A completion that a queued decision resumes can come before any approval above n. */
  ghost predicate CompletesFirst(g: Graph, n: string)
    requires n in g
  {
    || (exists a :: TellsApart(g, n, a))
    || (exists p :: GoneRound(g, n, p))
    || (NoCertainGate(g) && exists p, y :: StartsOver(g, p, y))
  }

  // ---------- what certainly succeeds ----------

  /** A step on which m depends was skipped or failed. */
  ghost predicate Behind(g: Graph, s: Nodes, m: string, d: string)
    requires m in g && g.Keys == s.Keys
  {
    && d in g[m].dependsOn && d in g && s[d].phase.Returned?
    && (s[d].status.Skipped? || s[d].status.CascadedSkip? || s[d].status.Failed?)
  }

  /** A step skipped by itself has a condition, and one skipped with its dependency has such a dependency. */
  ghost predicate SkipInv(g: Graph, s: Nodes)
    requires g.Keys == s.Keys
  {
    forall m <- g ::
      && (s[m].status.Skipped? ==> g[m].when != "")
      && (s[m].status.CascadedSkip? ==> exists d :: Behind(g, s, m, d))
  }

  lemma BehindStays(g: Graph, gate: string, s: Nodes, n: string, o: Outcome, m: string, d: string)
    requires g.Keys == s.Keys && m in g && Behind(g, s, m, d) && Enabled(g, s, n)
    ensures Behind(g, NodeStep(g, gate, s, n, o), m, d)
  {
  }

  /** A step that is skipped now was skipped with a dependency that has returned, or has a condition. */
  lemma OwnStepSkips(g: Graph, pre: set<string>, gate: string, s: Nodes, n: string, o: Outcome)
    requires Inv(g, pre, s) && SkipInv(g, s) && Enabled(g, s, n)
    ensures var s' := NodeStep(g, gate, s, n, o);
      && (s'[n].status.Skipped? ==> g[n].when != "")
      && (s'[n].status.CascadedSkip? ==> exists d :: Behind(g, s', n, d))
  {
    var s' := NodeStep(g, gate, s, n, o);
    if s[n].status.CascadedSkip? {
      var d :| Behind(g, s, n, d);
      BehindStays(g, gate, s, n, o, n, d);
    } else if s'[n].status.CascadedSkip? {
      assert NodeInv(g, pre, s, n);
      var d := g[n].dependsOn[s[n].phase.next];
      assert NodeInv(g, pre, s, d);
      assert Behind(g, s', n, d);
    }
  }

  lemma StepKeepsSkipInv(g: Graph, pre: set<string>, gate: string, s: Nodes, n: string, o: Outcome)
    requires Inv(g, pre, s) && SkipInv(g, s) && Enabled(g, s, n)
    ensures SkipInv(g, NodeStep(g, gate, s, n, o))
  {
    OwnStepSkips(g, pre, gate, s, n, o);
    forall m | m in g && m != n && s[m].status.CascadedSkip?
      ensures exists d :: Behind(g, NodeStep(g, gate, s, n, o), m, d)
    {
      var d :| Behind(g, s, m, d);
      BehindStays(g, gate, s, n, o, m, d);
    }
  }

  /** In a segment that ends without a failure or a pause every certain step has succeeded. */
  lemma {:induction false} CertainSucceeds(g: Graph, rank: Ranks, pre: set<string>, s: Nodes, c: string)
    requires Acyclic(g, rank) && Inv(g, pre, s) && SkipInv(g, s) && AllReturned(s) && EndsComplete(s)
    requires c in Certain(g, pre)
    ensures s[c].status.Success?
    decreases rank[c]
  {
    assert NodeInv(g, pre, s, c) && c in Family(g, c);
    if s[c].status.CascadedSkip? {
      var d :| Behind(g, s, c, d);
      FamilyOfDependency(g, c, d);
      CertainSucceeds(g, rank, pre, s, d);
    }
  }

  lemma CertainIsClosed(g: Graph, done: set<string>)
    ensures ClosedUnderDeps(g, Certain(g, done)) && Certain(g, done) <= g.Keys
  {
    forall x, d | x in Certain(g, done) && d in g[x].dependsOn && d in g
      ensures d in Certain(g, done)
    {
      FamilyOfDependency(g, x, d);
    }
  }

  lemma CertainGrows(g: Graph, done: set<string>, more: set<string>)
    requires done <= more
    ensures Certain(g, done) <= Certain(g, more)
  {
  }

  // ---------- nothing is resumed from a completion ----------

  /** A gate was asked before these steps were saved. */
  ghost predicate AskedSet(g: Graph, done: set<string>)
  {
    exists p :: p in g && IsGate(g[p]) && Above(g, p) <= done
  }

  /** A gate has been asked in this segment. */
  ghost predicate Asks(g: Graph, s: Nodes, p: string)
  {
    && p in g && p in s && IsGate(g[p]) && (s[p].status.Paused? || s[p].status.Failed?)
    && Above(g, p) <= Succeeded(s)
  }

  ghost predicate AsksSome(g: Graph, s: Nodes)
  {
    exists p :: Asks(g, s, p)
  }

  /** What a task can load while nothing comes from a completion. */
  ghost predicate Loadable(g: Graph, log: seq<Entry>, gate: string, done: set<string>)
  {
    && ClosedUnderDeps(g, done) && GatesApproved(g, log, done)
    && (AskedSet(g, done) || (done == {} && gate == ""))
  }

  ghost predicate NoGateSucceeded(g: Graph, s: Nodes)
  {
    forall c <- Succeeded(s) | c in g :: !IsGate(g[c])
  }

  /** The analyst has not been told. Where no gate is certain to be asked, the first segment is not
      resumed: before a gate is asked in it nobody decides, and afterwards something was saved. */
  ghost predicate Live(g: Graph, t: Task)
  {
    && t.told == 0
    && (!t.started ==> t.store.None? && t.segment.None? && t.queued == 0)
    && (t.store.Some? ==>
          && !t.store.value.twice && Loadable(g, t.log, t.store.value.gate, t.store.value.completed)
          && (NoCertainGate(g) && !AskedSet(g, t.store.value.completed) ==> t.queued == 0))
    && (t.segment.Some? ==>
          var seg := t.segment.value;
          && Loadable(g, t.log, seg.gate, seg.pre)
          && (!AskedSet(g, seg.pre) ==>
                && NoGateSucceeded(g, seg.nodes)
                && (NoCertainGate(g) ==>
                      AsksSome(g, seg.nodes) || (t.queued == 0 && (t.store.Some? ==> t.store.value.gate == "")))))
  }

  /** The first segment ended as completed, and nobody can decide anything. */
  ghost predicate Dead(t: Task)
  {
    t.started && t.segment.None? && t.queued == 0 && (t.store.Some? ==> t.store.value.gate == "")
  }

  ghost predicate ApartInv(g: Graph, ids: seq<string>, n: string, t: Task)
    requires n in g
  {
    && TaskInv(g, ids, t) && ApprovedWhenCalled(g, t.log, n)
    && (t.segment.Some? ==> SkipInv(g, t.segment.value.nodes))
    && (NoneApproved(g, n, t.log) ==> Live(g, t) || Dead(t))
  }

  lemma LaterIsApproved(g: Graph, n: string, log: seq<Entry>, e: Entry)
    requires n in g && ApprovedWhenCalled(g, log, n) && (e == Call(n) ==> !NoneApproved(g, n, log))
    ensures ApprovedWhenCalled(g, log + [e], n)
  {
    var more := log + [e];
    forall i | 0 <= i < |more| && more[i] == Call(n)
      ensures exists a :: GateAncestor(g, n, a) && Approval(g[a].humanGate) in more[..i]
    {
      assert more[..i] == if i < |log| then log[..i] else log;
    }
  }

  lemma ApprovedStays(g: Graph, n: string, log: seq<Entry>, more: seq<Entry>)
    requires n in g && log <= more
    ensures NoneApproved(g, n, more) ==> NoneApproved(g, n, log)
  {
    assert forall e <- log :: e in more;
  }

  /** Where nothing comes from a completion, all gates above an acting node are approved. */
  lemma ActingIsApproved(g: Graph, ids: seq<string>, t: Task, m: string)
    requires TaskInv(g, ids, t) && Live(g, t) && t.segment.Some? && m in g
    requires t.segment.value.nodes[m].phase.Acting?
    ensures AllApproved(g, t.log, m)
  {
    var seg := t.segment.value;
    ClosedSettles(g, seg.pre);
    ActingPastGates(g, seg.pre, seg.nodes, m);
  }

  /** What a node writes: nothing, or what had been loaded, or what has succeeded when a gate asks. */
  lemma MoveStores(g: Graph, ids: seq<string>, t: Task, m: string, o: Outcome)
    requires Can(g, t, NodeMoves(m, o))
    ensures var seg, t', node := t.segment.value, Do(g, ids, t, NodeMoves(m, o)), t.segment.value.nodes[m];
      || t'.store == t.store || t'.store.None?
      || (&& t'.store.value.completed == seg.pre && !t'.store.value.twice && t'.store.value.gate in {"", seg.gate}
          && !IsGate(g[m]) && MayFail(g[m]) && t'.segment.value.nodes[m].status.Failed?
          && (node.phase.Acting?
              || (node.phase.Waiting? && node.phase.next >= |g[m].dependsOn| && !node.status.Success?)))
      || (&& t'.store.value.completed == Succeeded(t'.segment.value.nodes) && !t'.store.value.twice
          && IsGate(g[m]) && node.phase.Acting?
          && (t'.segment.value.nodes[m].status.Paused? || t'.segment.value.nodes[m].status.Failed?))
  {
  }

  lemma AboveSucceeded(g: Graph, pre: set<string>, s: Nodes, m: string)
    requires Inv(g, pre, s) && ClosedUnderDeps(g, pre) && m in g && DepsSucceeded(g, s, m, |g[m].dependsOn|)
    ensures Above(g, m) <= Succeeded(s)
  {
    ClosedSettles(g, pre);
    forall x | x in Above(g, m)
      ensures x in Succeeded(s)
    {
      var path :| EndsAt(g, g[m].dependsOn, path, x);
      if |path| > 1 {
        ChainTail(g, g[m].dependsOn, path);
        SucceededChain(g, pre, s, path[0], path[1..]);
      }
    }
  }

  /** What has succeeded by now could be loaded, if a gate has been asked. */
  lemma SucceededIsLoadable(g: Graph, ids: seq<string>, t: Task, m: string, o: Outcome, gate: string)
    requires TaskInv(g, ids, t) && Live(g, t) && Can(g, t, NodeMoves(m, o))
    requires IsGate(g[m]) && t.segment.value.nodes[m].phase.Acting?
    ensures var done' := Succeeded(Do(g, ids, t, NodeMoves(m, o)).segment.value.nodes);
      Loadable(g, t.log, gate, done') && AskedSet(g, done')
  {
    var seg := t.segment.value;
    var s' := NodeStep(g, seg.gate, seg.nodes, m, o);
    ClosedSettles(g, seg.pre);
    MoveKeepsSound(g, ids, t, m, o);
    StepKeepsInv(g, seg.pre, seg.gate, seg.nodes, m, o);
    SavedSetSettles(g, seg.pre, s');
    NothingOvertakenIsClosed(g, Succeeded(s'));
    assert NodeInv(g, seg.pre, seg.nodes, m);
    AboveSucceeded(g, seg.pre, seg.nodes, m);
  }

  lemma MoveKeepsLoadable(g: Graph, ids: seq<string>, t: Task, m: string, o: Outcome)
    requires TaskInv(g, ids, t) && Live(g, t) && Can(g, t, NodeMoves(m, o))
    ensures var t' := Do(g, ids, t, NodeMoves(m, o));
      t'.store.Some? ==> !t'.store.value.twice && Loadable(g, t.log, t'.store.value.gate, t'.store.value.completed)
  {
    MoveStores(g, ids, t, m, o);
    var t' := Do(g, ids, t, NodeMoves(m, o));
    if t'.store.Some? && IsGate(g[m]) && t.segment.value.nodes[m].phase.Acting? {
      SucceededIsLoadable(g, ids, t, m, o, t'.store.value.gate);
    }
  }

  lemma AsksStays(g: Graph, ids: seq<string>, t: Task, m: string, o: Outcome, p: string)
    requires TaskInv(g, ids, t) && Can(g, t, NodeMoves(m, o)) && Asks(g, t.segment.value.nodes, p)
    ensures Asks(g, Do(g, ids, t, NodeMoves(m, o)).segment.value.nodes, p)
  {
    var seg := t.segment.value;
    MoveKeepsSound(g, ids, t, m, o);
    assert NodeInv(g, seg.pre, seg.nodes, p);
  }

  lemma AskingAsks(g: Graph, ids: seq<string>, t: Task, m: string, o: Outcome)
    requires TaskInv(g, ids, t) && Live(g, t) && Can(g, t, NodeMoves(m, o))
    requires IsGate(g[m]) && t.segment.value.nodes[m].phase.Acting?
    ensures var s' := Do(g, ids, t, NodeMoves(m, o)).segment.value.nodes; Asks(g, s', m) || s'[m].status.Success?
  {
    var seg := t.segment.value;
    assert NodeInv(g, seg.pre, seg.nodes, m);
    AboveSucceeded(g, seg.pre, seg.nodes, m);
    MoveKeepsSound(g, ids, t, m, o);
  }

  /** In the first segment, what a step descends from when it writes is no gate. */
  lemma WriterIsUngated(g: Graph, pre: set<string>, s: Nodes, m: string)
    requires Inv(g, pre, s) && ClosedUnderDeps(g, pre) && m in g && !IsGate(g[m]) && NoGateSucceeded(g, s)
    requires DepsSucceeded(g, s, m, |g[m].dependsOn|)
    ensures Ungated(g, m)
  {
    AboveSucceeded(g, pre, s, m);
    forall a | GateAncestor(g, m, a)
      ensures a == m
    {
      assert a in Family(g, m);
    }
  }

  /** A step whose failure writes back what had been loaded makes the task start over. */
  lemma WriterStartsOver(g: Graph, pre: set<string>, s: Nodes, m: string, p: string)
    requires Inv(g, pre, s) && ClosedUnderDeps(g, pre) && NoGateSucceeded(g, s) && Asks(g, s, p)
    requires m in g && !IsGate(g[m]) && MayFail(g[m])
    requires s[m].phase.Acting? || (s[m].phase.Waiting? && s[m].phase.next >= |g[m].dependsOn| && !s[m].status.Success?)
    ensures StartsOver(g, p, m)
  {
    assert NodeInv(g, pre, s, m);
    WriterIsUngated(g, pre, s, m);
    PendingIsNotAbove(g, s, m, p);
  }

  lemma PendingIsNotAbove(g: Graph, s: Nodes, m: string, p: string)
    requires Asks(g, s, p) && m != p && m !in Succeeded(s)
    ensures m !in Family(g, p)
  {
    assert Family(g, p) <= Above(g, p) + {p};
  }

  /** The first segment, where no gate is certain to be asked. */
  lemma MoveKeepsOpening(g: Graph, ids: seq<string>, n: string, t: Task, m: string, o: Outcome)
    requires n in g && !CompletesFirst(g, n) && NoCertainGate(g)
    requires TaskInv(g, ids, t) && Live(g, t) && Can(g, t, NodeMoves(m, o)) && !AskedSet(g, t.segment.value.pre)
    ensures var t' := Do(g, ids, t, NodeMoves(m, o));
      && (AsksSome(g, t'.segment.value.nodes) || (t'.queued == 0 && (t'.store.Some? ==> t'.store.value.gate == "")))
      && (t'.store.Some? && !AskedSet(g, t'.store.value.completed) ==> t'.queued == 0)
  {
    var seg, t' := t.segment.value, Do(g, ids, t, NodeMoves(m, o));
    MoveStores(g, ids, t, m, o);
    if IsGate(g[m]) && seg.nodes[m].phase.Acting? {
      SucceededIsLoadable(g, ids, t, m, o, "");
      AskingAsks(g, ids, t, m, o);
      NoGatePasses(g, seg.pre, seg.nodes, m, o);
    } else if p :| Asks(g, seg.nodes, p) {
      AsksStays(g, ids, t, m, o, p);
      if t'.store.Some? && t'.store != t.store {
        WriterStartsOver(g, seg.pre, seg.nodes, m, p);
      }
    }
  }

  /** No gate passes in a segment that was resumed at none. */
  lemma NoGatePasses(g: Graph, pre: set<string>, s: Nodes, m: string, o: Outcome)
    requires Inv(g, pre, s) && Enabled(g, s, m) && NoGateSucceeded(g, s)
    ensures NoGateSucceeded(g, NodeStep(g, "", s, m, o))
  {
    var s' := NodeStep(g, "", s, m, o);
    assert NodeInv(g, pre, s, m);
    assert m in Succeeded(s) ==> !IsGate(g[m]);
    assert !(IsGate(g[m]) && s'[m].status.Success?);
    forall c | c in Succeeded(s') && c in g
      ensures !IsGate(g[c])
    {
      assert c in Succeeded(s) || c == m;
    }
  }

  lemma MoveKeepsLive(g: Graph, ids: seq<string>, n: string, t: Task, m: string, o: Outcome)
    requires n in g && !CompletesFirst(g, n)
    requires TaskInv(g, ids, t) && Live(g, t) && Can(g, t, NodeMoves(m, o)) && NoneApproved(g, n, t.log)
    ensures var t' := Do(g, ids, t, NodeMoves(m, o)); Live(g, t'.(log := t.log)) && t'.told == t.told
  {
    MoveKeepsLoadable(g, ids, t, m, o);
    MoveTellsNobody(g, ids, n, t, m);
    if !AskedSet(g, t.segment.value.pre) {
      NoGatePasses(g, t.segment.value.pre, t.segment.value.nodes, m, o);
      if NoCertainGate(g) {
        MoveKeepsOpening(g, ids, n, t, m, o);
      }
    } else {
      MoveKeepsAsked(g, ids, t, m, o);
    }
  }

  /** Before an approval above n no analyst step acts. */
  lemma MoveTellsNobody(g: Graph, ids: seq<string>, n: string, t: Task, m: string)
    requires n in g && !CompletesFirst(g, n) && TaskInv(g, ids, t) && Live(g, t) && NoneApproved(g, n, t.log)
    requires t.segment.Some? && m in g
    ensures !Tells(g[m], t.segment.value.nodes[m])
  {
    if t.segment.value.nodes[m].phase.Acting? {
      assert IsTelling(g[m]) ==> !TellsApart(g, n, m);
      ActingIsApproved(g, ids, t, m);
    }
  }

  lemma MoveKeepsAsked(g: Graph, ids: seq<string>, t: Task, m: string, o: Outcome)
    requires TaskInv(g, ids, t) && Live(g, t) && Can(g, t, NodeMoves(m, o)) && AskedSet(g, t.segment.value.pre)
    ensures var t' := Do(g, ids, t, NodeMoves(m, o));
      t'.store.Some? && NoCertainGate(g) && !AskedSet(g, t'.store.value.completed) ==> t'.queued == 0
  {
    MoveStores(g, ids, t, m, o);
    var t' := Do(g, ids, t, NodeMoves(m, o));
    if IsGate(g[m]) && t.segment.value.nodes[m].phase.Acting? {
      SucceededIsLoadable(g, ids, t, m, o, "");
    }
  }

  lemma MoveKeepsApart(g: Graph, ids: seq<string>, n: string, t: Task, m: string, o: Outcome)
    requires n in g && (exists a :: GateAncestor(g, n, a)) && !CompletesFirst(g, n)
    requires ApartInv(g, ids, n, t) && Can(g, t, NodeMoves(m, o))
    ensures ApartInv(g, ids, n, Do(g, ids, t, NodeMoves(m, o)))
  {
    var seg, t' := t.segment.value, Do(g, ids, t, NodeMoves(m, o));
    MoveKeepsTaskInv(g, ids, t, m, o);
    StepKeepsSkipInv(g, seg.pre, seg.gate, seg.nodes, m, o);
    ApprovedStays(g, n, t.log, t'.log);
    if NoneApproved(g, n, t.log) {
      MoveKeepsLive(g, ids, n, t, m, o);
      LoggedStaysLive(g, t'.(log := t.log), m);
    }
    if Calls(g[m], seg.nodes[m], o) {
      CallIsApproved(g, ids, n, t, m);
      LaterIsApproved(g, n, t.log, Call(m));
    }
  }

  lemma CallIsApproved(g: Graph, ids: seq<string>, n: string, t: Task, m: string)
    requires n in g && (exists a :: GateAncestor(g, n, a)) && ApartInv(g, ids, n, t)
    requires t.segment.Some? && m in g && t.segment.value.nodes[m].phase.Acting?
    ensures m == n ==> !NoneApproved(g, n, t.log)
  {
    if NoneApproved(g, n, t.log) {
      ActingIsApproved(g, ids, t, m);
    }
  }

  /** A call in the log changes nothing of it. */
  lemma LoggedStaysLive(g: Graph, t: Task, m: string)
    requires Live(g, t)
    ensures Live(g, t.(log := t.log + [Call(m)]))
  {
    if t.store.Some? {
      GatesStayApproved(g, t.log, Call(m), t.store.value.completed);
    }
    if t.segment.Some? {
      GatesStayApproved(g, t.log, Call(m), t.segment.value.pre);
    }
  }

  lemma GatesStayApproved(g: Graph, log: seq<Entry>, e: Entry, done: set<string>)
    requires GatesApproved(g, log, done)
    ensures GatesApproved(g, log + [e], done)
  {
  }

  /** A segment that ends without a failure or a pause before any approval above n is the first one,
      and nobody can resume the task. */
  lemma EndKeepsApart(g: Graph, rank: Ranks, ids: seq<string>, n: string, t: Task)
    requires Acyclic(g, rank) && n in g && !CompletesFirst(g, n)
    requires ApartInv(g, ids, n, t) && Can(g, t, SegmentEnds)
    ensures ApartInv(g, ids, n, Do(g, ids, t, SegmentEnds))
  {
    var seg := t.segment.value;
    if NoneApproved(g, n, t.log) && EndsComplete(seg.nodes) {
      if AskedSet(g, seg.pre) {
        AskedEndsApproved(g, rank, ids, n, t);
      } else if !NoCertainGate(g) {
        var u :| u in Certain(g, {}) && IsGate(g[u]);
        CertainSucceeds(g, rank, seg.pre, seg.nodes, u);
      }
    }
  }

  lemma AskedEndsApproved(g: Graph, rank: Ranks, ids: seq<string>, n: string, t: Task)
    requires Acyclic(g, rank) && n in g && TaskInv(g, ids, t) && Live(g, t) && t.segment.Some?
    requires SkipInv(g, t.segment.value.nodes) && AskedSet(g, t.segment.value.pre) && NoneApproved(g, n, t.log)
    requires AllReturned(t.segment.value.nodes) && EndsComplete(t.segment.value.nodes)
    ensures exists p :: GoneRound(g, n, p)
  {
    var seg := t.segment.value;
    ClosedSettles(g, seg.pre);
    var p :| p in g && IsGate(g[p]) && Above(g, p) <= seg.pre;
    CertainGrows(g, Above(g, p), seg.pre);
    forall c | c in Certain(g, Above(g, p))
      ensures !NamedLikeGate(g, n, c)
    {
      CertainSucceeds(g, rank, seg.pre, seg.nodes, c);
      assert c in Succeeded(seg.nodes);
    }
    assert GoneRound(g, n, p);
  }

  lemma DecisionKeepsApart(g: Graph, ids: seq<string>, n: string, t: Task, approved: bool)
    requires n in g && ApartInv(g, ids, n, t) && Can(g, t, Decide(approved))
    ensures ApartInv(g, ids, n, Do(g, ids, t, Decide(approved)))
  {
    DecisionKeepsTaskInv(g, ids, t, approved);
    if t.store.Some? && approved {
      var st, e := t.store.value, Approval(t.store.value.gate);
      LaterIsApproved(g, n, t.log, e);
      ApprovedStays(g, n, t.log, t.log + [e]);
      if NoneApproved(g, n, t.log) {
        GatesStayApproved(g, t.log, e, st.completed);
        ResumedIsLive(g, st.completed);
      }
    }
  }

  lemma ResumedIsLive(g: Graph, completed: set<string>)
    ensures completed == {} ==> NoGateSucceeded(g, InitialNodes(g, completed))
  {
  }

  lemma OtherKeepsApart(g: Graph, ids: seq<string>, n: string, t: Task, e: Event)
    requires n in g && ListSettles(g, ids) && ApartInv(g, ids, n, t) && Can(g, t, e)
    requires e.Start? || e.Crash? || e.PostDecision? || e.Complete?
    ensures ApartInv(g, ids, n, Do(g, ids, t, e))
  {
    EventKeepsTaskInv(g, ids, t, e);
  }

  lemma EventKeepsApart(g: Graph, rank: Ranks, ids: seq<string>, n: string, t: Task, e: Event)
    requires Acyclic(g, rank) && ListSettles(g, ids)
    requires n in g && (exists a :: GateAncestor(g, n, a)) && !CompletesFirst(g, n)
    requires ApartInv(g, ids, n, t) && Can(g, t, e)
    ensures ApartInv(g, ids, n, Do(g, ids, t, e))
  {
    match e
    case NodeMoves(m, o) => MoveKeepsApart(g, ids, n, t, m, o);
    case SegmentEnds => EndKeepsApart(g, rank, ids, n, t);
    case Decide(approved) => DecisionKeepsApart(g, ids, n, t, approved);
    case _ => OtherKeepsApart(g, ids, n, t, e);
  }

  lemma {:induction false} RunKeepsApart(g: Graph, rank: Ranks, ids: seq<string>, n: string, t: Task,
      events: seq<Event>, t': Task)
    requires Acyclic(g, rank) && ListSettles(g, ids)
    requires n in g && (exists a :: GateAncestor(g, n, a)) && !CompletesFirst(g, n)
    requires ApartInv(g, ids, n, t) && Run(g, ids, t, events, t')
    ensures ApartInv(g, ids, n, t')
    decreases |events|
  {
    if events != [] {
      EventKeepsApart(g, rank, ids, n, t, events[0]);
      RunKeepsApart(g, rank, ids, n, Do(g, ids, t, events[0]), events[1..], t');
    }
  }

  // ---------- a completion that cannot be resumed from ----------

  /** Where a list that names a step twice is stored, nothing is resumed from it. */
  ghost predicate TwiceInv(g: Graph, ids: seq<string>, n: string, t: Task)
    requires n in g
  {
    && TaskInv(g, ids, t) && ApprovedWhenCalled(g, t.log, n)
    && (t.store.Some? ==> t.store.value.twice || Earned(g, t.log, t.store.value.completed))
    && (t.segment.Some? ==> Earned(g, t.log, t.segment.value.pre))
  }

  lemma MoveKeepsTwice(g: Graph, ids: seq<string>, n: string, t: Task, m: string, o: Outcome)
    requires n in g && (exists a :: GateAncestor(g, n, a)) && TwiceInv(g, ids, n, t) && Can(g, t, NodeMoves(m, o))
    ensures TwiceInv(g, ids, n, Do(g, ids, t, NodeMoves(m, o)))
  {
    var seg, t' := t.segment.value, Do(g, ids, t, NodeMoves(m, o));
    MoveKeepsTaskInv(g, ids, t, m, o);
    MoveKeepsSound(g, ids, t, m, o);
    LoggedCallKeeps(g, ids, t.log, m, seg.pre);
    if t'.store.Some? {
      LoggedCallKeeps(g, ids, t.log, m, t'.store.value.completed);
    }
    if Calls(g[m], seg.nodes[m], o) {
      ActingPastGates(g, seg.pre, seg.nodes, m);
      LaterIsApproved(g, n, t.log, Call(m));
    }
  }

  lemma EventKeepsTwice(g: Graph, ids: seq<string>, n: string, t: Task, e: Event)
    requires n in g && (exists a :: GateAncestor(g, n, a)) && NamesTwice(g, ids)
    requires TwiceInv(g, ids, n, t) && Can(g, t, e)
    ensures TwiceInv(g, ids, n, Do(g, ids, t, e))
  {
    EventKeepsTaskInv(g, ids, t, e);
    match e
    case Start => ClosedSettles(g, {});
    case NodeMoves(m, o) => MoveKeepsTwice(g, ids, n, t, m, o);
    case Decide(approved) =>
      if t.store.Some? && approved {
        LaterIsApproved(g, n, t.log, Approval(t.store.value.gate));
        SoundGrows(g, ids, t.log, Approval(t.store.value.gate), t.store.value.completed);
      }
    case Complete => ClosedSettles(g, {});
    case _ =>
  }

  lemma {:induction false} RunKeepsTwice(g: Graph, ids: seq<string>, n: string, t: Task, events: seq<Event>, t': Task)
    requires n in g && (exists a :: GateAncestor(g, n, a)) && NamesTwice(g, ids)
    requires TwiceInv(g, ids, n, t) && Run(g, ids, t, events, t')
    ensures TwiceInv(g, ids, n, t')
    decreases |events|
  {
    if events != [] {
      EventKeepsTwice(g, ids, n, t, events[0]);
      RunKeepsTwice(g, ids, n, Do(g, ids, t, events[0]), events[1..], t');
    }
  }
}
