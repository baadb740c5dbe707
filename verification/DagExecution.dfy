/** One segment of a DAG run: a goroutine per node, each waiting on its dependencies, acting, and
    closing its channel. The steps of the goroutines interleave freely. */
module DagExecution {
  import opened Pipelines
  import opened PipelineSafety

  datatype Status = Pending | Running | Success | Failed | Skipped | Paused | CascadedSkip | CascadedPause

  predicate Blocks(s: Status)
  {
    s.Failed? || s.Skipped? || s.CascadedSkip? || s.Paused? || s.CascadedPause?
  }

  function Cascade(s: Status): (c: Status)
    ensures Blocks(c)
  {
    if s.Paused? || s.CascadedPause? then CascadedPause else CascadedSkip
  }

  predicate Settled(s: Status)
  {
    !s.Pending? && !s.Running?
  }

  /** Where a node's goroutine is: about to look at dependency `next`, acting, about to close its
      channel, or returned. */
  datatype Phase = Waiting(next: nat) | Acting | Closing | Returned

  /** closes counts how often the node's channel was closed; Go panics on the second time. */
  datatype Node = Node(status: Status, phase: Phase, closes: nat)

  type Nodes = map<string, Node>
  type Graph = map<string, Step>

  // ---------- what the world answers a node ----------

  datatype CallOutcome = NotConfigured | StartNotJournaled | Invoked(ok: bool, completionJournaled: bool)
  datatype PauseOutcome = PauseSaved | PauseNotSaved | RequestNotJournaled

  /** A node's own outcome. cleared: a journal failure of another node emptied the gate loaded for
      this segment before this node looked at it. */
  datatype Outcome = Outcome(cond: Condition, skipJournaled: bool, call: CallOutcome, pause: PauseOutcome,
      cleared: bool)

  const SAVE_PREFERENCE := "system.save_preference"

  /** A gate step of the executor: an agent step never reaches the gate branch. */
  predicate IsGate(step: Step)
  {
    step.agent == "" && step.humanGate != ""
  }

  /** A step that calls a registry tool. */
  predicate IsToolCall(step: Step)
  {
    step.agent == "" && step.humanGate == "" && !step.analyst && step.tool != SAVE_PREFERENCE
  }

  /** A step that invokes a tool or an agent. */
  predicate IsCall(step: Step)
  {
    step.agent != "" || IsToolCall(step)
  }

  /** A step that can end without success though all that it depends on succeeded. */
  predicate MayFail(step: Step)
  {
    IsCall(step) || IsGate(step) || step.when != ""
  }

  predicate Passes(step: Step, gate: string, o: Outcome)
  {
    step.humanGate == gate && !o.cleared
  }

  function CallStatus(call: CallOutcome): (s: Status)
    ensures s.Success? || s.Failed?
    ensures s.Success? ==> call.Invoked? && call.ok && call.completionJournaled
  {
    if call.Invoked? && call.ok && call.completionJournaled then Success else Failed
  }

  /** The status a node gives itself once it acts, `gate` being the gate the segment was resumed at. */
  function ActStatus(step: Step, gate: string, o: Outcome): (s: Status)
    ensures Settled(s) && !s.CascadedSkip? && !s.CascadedPause? && !s.Skipped?
    ensures s.Success? && IsGate(step) ==> step.humanGate == gate
  {
    if step.agent != "" then CallStatus(o.call)
    else if step.humanGate != "" then
      if Passes(step, gate, o) then Success
      else if o.pause.PauseSaved? then Paused
      else Failed
    else if step.analyst || step.tool == SAVE_PREFERENCE then Success
    else CallStatus(o.call)
  }

  /** The status a condition that does not hold gives: a skip that cannot be journaled fails. */
  function SkipStatus(step: Step, o: Outcome): (s: Status)
    ensures Blocks(s) && (s.Failed? || s.Skipped?)
  {
    if step.humanGate == "" && !o.skipJournaled then Failed else Skipped
  }

  function OwnStatus(step: Step, gate: string, o: Outcome): (s: Status)
    ensures Settled(s)
  {
    if StepShouldRun(step, o.cond) then ActStatus(step, gate, o) else SkipStatus(step, o)
  }

  // ---------- the atomic steps of a goroutine ----------

  /** Every step of a node is fixed by where it is; `o` is used only where the world answers. */
  predicate Enabled(g: Graph, s: Nodes, n: string)
  {
    && n in g && n in s
    && match s[n].phase
       case Waiting(k) => k < |g[n].dependsOn| && g[n].dependsOn[k] in s ==> s[g[n].dependsOn[k]].closes > 0
       case Acting => true
       case Closing => true
       case Returned => false
  }

  function NodeStep(g: Graph, gate: string, s: Nodes, n: string, o: Outcome): (s': Nodes)
    requires Enabled(g, s, n)
    ensures s'.Keys == s.Keys
    ensures forall m <- s :: m != n ==> s'[m] == s[m]
  {
    var node := s[n];
    match node.phase
    case Waiting(k) =>
      if k < |g[n].dependsOn| then
        var dep := g[n].dependsOn[k];
        if dep in s && Blocks(s[dep].status) then s[n := node.(status := Cascade(s[dep].status), phase := Closing)]
        else s[n := node.(phase := Waiting(k + 1))]
      else if node.status.Success? then s[n := node.(phase := Returned)]
      else if StepShouldRun(g[n], o.cond) then s[n := node.(status := Running, phase := Acting)]
      else s[n := node.(status := SkipStatus(g[n], o), phase := Closing)]
    case Acting => s[n := node.(status := ActStatus(g[n], gate, o), phase := Closing)]
    case Closing => s[n := node.(closes := node.closes + 1, phase := Returned)]
  }

  predicate AllReturned(s: Nodes)
  {
    forall n <- s :: s[n].phase.Returned?
  }

  /** The nodes before their goroutines start: the completed ones are closed already. */
  function InitialNodes(g: Graph, completed: set<string>): (s: Nodes)
    ensures s.Keys == g.Keys
  {
    map n | n in g :: if n in completed then Node(Success, Waiting(0), 1) else Node(Pending, Waiting(0), 0)
  }

  /** The list names a step of the graph twice. */
  ghost predicate NamesTwice(g: Graph, completed: seq<string>)
  {
    exists i, j :: 0 <= i < j < |completed| && completed[i] == completed[j] && completed[i] in g
  }

  // ---------- what every step keeps ----------

  ghost predicate ClosedUnderDeps(g: Graph, c: set<string>)
  {
    forall n, d | n in c && n in g && d in g[n].dependsOn && d in g :: d in c
  }

  /** Steps that are not completed though a completed one descends from them. */
  ghost function Overtaken(g: Graph, completed: set<string>): set<string>
  {
    set y | y in g && y !in completed && exists n :: n in completed && n in g && Ancestor(g, g[n].dependsOn, y)
  }

  /** Whatever completed steps descend from is completed, too, or cannot fail. */
  ghost predicate Settles(g: Graph, completed: set<string>)
  {
    forall y <- Overtaken(g, completed) :: !MayFail(g[y])
  }

  lemma DependencyIsOvertaken(g: Graph, completed: set<string>, x: string, d: string)
    requires x in g && (x in completed || x in Overtaken(g, completed)) && d in g[x].dependsOn && d in g
    ensures d in completed || d in Overtaken(g, completed)
  {
    if x in completed {
      assert EndsAt(g, g[x].dependsOn, [d], d);
    } else {
      var n :| n in completed && n in g && Ancestor(g, g[n].dependsOn, x);
      AncestorsDependencyIsAncestor(g, g[n].dependsOn, x, d);
    }
  }

  lemma {:induction false} ClosedChainIsCompleted(g: Graph, completed: set<string>, n: string, path: seq<string>,
      k: nat)
    requires ClosedUnderDeps(g, completed) && n in completed && n in g && Chain(g, g[n].dependsOn, path) && k < |path|
    ensures path[k] in completed
  {
    if k > 0 {
      ClosedChainIsCompleted(g, completed, n, path, k - 1);
      assert path[k - 1 + 1] in g[path[k - 1]].dependsOn;
    }
  }

  /** A set closed under depends_on overtakes nothing. */
  lemma ClosedSettles(g: Graph, completed: set<string>)
    requires ClosedUnderDeps(g, completed)
    ensures Overtaken(g, completed) == {} && Settles(g, completed)
  {
    forall n, y | n in completed && n in g && Ancestor(g, g[n].dependsOn, y)
      ensures y in completed
    {
      var path :| EndsAt(g, g[n].dependsOn, path, y);
      ClosedChainIsCompleted(g, completed, n, path, |path| - 1);
    }
  }

  ghost predicate DepsSucceeded(g: Graph, s: Nodes, n: string, k: nat)
    requires n in g && g.Keys == s.Keys && k <= |g[n].dependsOn|
  {
    forall j | 0 <= j < k :: g[n].dependsOn[j] in g ==> s[g[n].dependsOn[j]].status.Success?
  }

  ghost predicate NodeInv(g: Graph, pre: set<string>, s: Nodes, n: string)
    requires n in g && g.Keys == s.Keys
  {
    var node := s[n];
    && (n !in pre && (node.status.Success? || node.status.Running?) ==> DepsSucceeded(g, s, n, |g[n].dependsOn|))
    && if n in pre then node.status.Success? && node.closes == 1 && (node.phase.Waiting? || node.phase.Returned?) &&
        (node.phase.Waiting? ==> node.phase.next <= |g[n].dependsOn|)
       else match node.phase
         case Waiting(k) => node.status.Pending? && node.closes == 0 && k <= |g[n].dependsOn| &&
             DepsSucceeded(g, s, n, k)
         case Acting => node.status.Running? && node.closes == 0
         case Closing => Settled(node.status) && node.closes == 0
         case Returned => Settled(node.status) && node.closes == 1
  }

  ghost predicate Inv(g: Graph, pre: set<string>, s: Nodes)
  {
    && g.Keys == s.Keys && Settles(g, pre)
    && (forall n <- g :: NodeInv(g, pre, s, n))
    && (forall y <- Overtaken(g, pre) :: !Blocks(s[y].status))
  }

  lemma InitialInv(g: Graph, completed: set<string>)
    requires Settles(g, completed)
    ensures Inv(g, completed, InitialNodes(g, completed))
  {
  }

  /** A node's success is final. */
  lemma SuccessStays(g: Graph, pre: set<string>, gate: string, s: Nodes, n: string, o: Outcome, m: string)
    requires Inv(g, pre, s) && Enabled(g, s, n)
    requires m in g && s[m].status.Success?
    ensures NodeStep(g, gate, s, n, o)[m].status.Success?
  {
    if m == n && s[n].phase.Waiting? && s[n].phase.next < |g[n].dependsOn| {
      var dep := g[n].dependsOn[s[n].phase.next];
      if dep in g {
        DependencyDoesNotBlock(g, pre, s, n, dep);
      }
    }
  }

  /** What a completed step waits for, overtaken or not, does not block. */
  lemma DependencyDoesNotBlock(g: Graph, pre: set<string>, s: Nodes, n: string, d: string)
    requires Inv(g, pre, s) && n in g && (n in pre || n in Overtaken(g, pre)) && d in g[n].dependsOn && d in g
    ensures !Blocks(s[d].status)
  {
    DependencyIsOvertaken(g, pre, n, d);
    assert NodeInv(g, pre, s, d);
  }

  lemma StepKeepsInv(g: Graph, pre: set<string>, gate: string, s: Nodes, n: string, o: Outcome)
    requires Inv(g, pre, s) && Enabled(g, s, n)
    ensures Inv(g, pre, NodeStep(g, gate, s, n, o))
  {
    var s' := NodeStep(g, gate, s, n, o);
    forall m | m in g && s[m].status.Success?
      ensures s'[m].status.Success?
    {
      SuccessStays(g, pre, gate, s, n, o, m);
    }
    forall m <- g
      ensures NodeInv(g, pre, s', m)
    {
      assert NodeInv(g, pre, s, m);
      if m == n && s[n].phase.Waiting? && s[n].phase.next < |g[n].dependsOn| {
        var dep := g[n].dependsOn[s[n].phase.next];
        assert dep in g ==> NodeInv(g, pre, s, dep);
        if dep in g && (n in pre || n in Overtaken(g, pre)) {
          DependencyDoesNotBlock(g, pre, s, n, dep);
        }
      }
    }
    StepKeepsOvertaken(g, pre, gate, s, n, o);
  }

  lemma StepKeepsOvertaken(g: Graph, pre: set<string>, gate: string, s: Nodes, n: string, o: Outcome)
    requires Inv(g, pre, s) && Enabled(g, s, n)
    ensures forall y <- Overtaken(g, pre) :: !Blocks(NodeStep(g, gate, s, n, o)[y].status)
  {
    if n in Overtaken(g, pre) && s[n].phase.Waiting? && s[n].phase.next < |g[n].dependsOn| {
      var dep := g[n].dependsOn[s[n].phase.next];
      if dep in g {
        DependencyDoesNotBlock(g, pre, s, n, dep);
      }
    }
  }

  /** No channel is ever closed twice: the only closing step finds it open. */
  lemma ClosesAtMostOnce(g: Graph, pre: set<string>, gate: string, s: Nodes, n: string, o: Outcome, m: string)
    requires Inv(g, pre, s) && Enabled(g, s, n) && m in g
    ensures s[n].phase.Closing? ==> s[n].closes == 0
    ensures NodeStep(g, gate, s, n, o)[m].closes <= 1
    ensures AllReturned(s) ==> s[m].closes == 1
  {
    StepKeepsInv(g, pre, gate, s, n, o);
    assert NodeInv(g, pre, s, m) && NodeInv(g, pre, s, n);
    assert NodeInv(g, pre, NodeStep(g, gate, s, n, o), m);
  }

  /** The set that a pause saves. */
  function Succeeded(s: Nodes): set<string>
  {
    set n | n in s && s[n].status.Success?
  }

  lemma {:induction false} SucceededChain(g: Graph, pre: set<string>, s: Nodes, n: string, path: seq<string>)
    requires Inv(g, pre, s) && n in g && s[n].status.Success? && Chain(g, g[n].dependsOn, path)
    ensures s[path[|path| - 1]].status.Success? || path[|path| - 1] in Overtaken(g, pre)
    decreases |path|
  {
    var y := path[|path| - 1];
    assert NodeInv(g, pre, s, n) && NodeInv(g, pre, s, y);
    if n in pre {
      assert EndsAt(g, g[n].dependsOn, path, y);
    } else if |path| > 1 {
      ChainTail(g, g[n].dependsOn, path);
      SucceededChain(g, pre, s, path[0], path[1..]);
    }
  }

  lemma SavedSetSettles(g: Graph, pre: set<string>, s: Nodes)
    requires Inv(g, pre, s)
    ensures Settles(g, Succeeded(s)) && Overtaken(g, Succeeded(s)) <= Overtaken(g, pre)
    ensures forall n | n in pre && n in g :: n in Succeeded(s)
  {
    forall n | n in pre && n in g
      ensures n in Succeeded(s)
    {
      assert NodeInv(g, pre, s, n);
    }
    forall y | y in Overtaken(g, Succeeded(s))
      ensures y in Overtaken(g, pre)
    {
      var n :| n in Succeeded(s) && n in g && Ancestor(g, g[n].dependsOn, y);
      var path :| EndsAt(g, g[n].dependsOn, path, y);
      SucceededChain(g, pre, s, n, path);
    }
  }

  // ---------- termination: the remaining work shrinks ----------

  function Work(g: Graph, n: string, node: Node): nat
    requires n in g
  {
    match node.phase
    case Waiting(k) => if k <= |g[n].dependsOn| then |g[n].dependsOn| - k + 3 else 3
    case Acting => 2
    case Closing => 1
    case Returned => 0
  }

  /** The units of work left, as a set, so that doing one is a proper subset. */
  ghost function Remaining(g: Graph, s: Nodes): set<(string, nat)>
    requires g.Keys == s.Keys
  {
    set n, j: nat | n in s && 0 <= j < Work(g, n, s[n]) :: (n, j)
  }

  /** What holds of the nodes whatever a resumption was given: a returned node, and one that starts
      as a success, has a closed channel. */
  ghost predicate Sane(g: Graph, s: Nodes)
  {
    && g.Keys == s.Keys
    && forall n <- g ::
         && (s[n].phase.Waiting? ==> s[n].phase.next <= |g[n].dependsOn|)
         && (s[n].phase.Returned? || (s[n].phase.Waiting? && s[n].status.Success?) ==> s[n].closes > 0)
  }

  lemma InitialSane(g: Graph, completed: set<string>)
    ensures Sane(g, InitialNodes(g, completed))
  {
  }

  lemma StepKeepsSane(g: Graph, gate: string, s: Nodes, n: string, o: Outcome)
    requires Sane(g, s) && Enabled(g, s, n)
    ensures Sane(g, NodeStep(g, gate, s, n, o))
  {
  }

  lemma InvIsSane(g: Graph, pre: set<string>, s: Nodes)
    requires Inv(g, pre, s)
    ensures Sane(g, s)
  {
    forall n <- g
      ensures NodeInv(g, pre, s, n)
    {
    }
  }

  lemma StepShrinksWork(g: Graph, gate: string, s: Nodes, n: string, o: Outcome)
    requires Sane(g, s) && Enabled(g, s, n)
    ensures Remaining(g, NodeStep(g, gate, s, n, o)) < Remaining(g, s)
  {
    var s' := NodeStep(g, gate, s, n, o);
    assert Work(g, n, s'[n]) < Work(g, n, s[n]);
    assert (n, Work(g, n, s[n]) - 1) in Remaining(g, s);
    assert (n, Work(g, n, s[n]) - 1) !in Remaining(g, s');
  }

  // ---------- no deadlock ----------

  type Ranks = map<string, nat>

  /** depends_on is acyclic: every known dependency ranks below its node. */
  ghost predicate Acyclic(g: Graph, rank: Ranks)
  {
    && g.Keys <= rank.Keys
    && forall n, d | n in g && d in g[n].dependsOn && d in g :: rank[d] < rank[n]
  }

  /** A node that has not returned can step, or waits in the end for one that can: one among the
      given steps, if they are closed under depends_on. */
  lemma {:induction false} SomeNodeCanStep(g: Graph, rank: Ranks, s: Nodes, among: set<string>, n: string)
      returns (m: string)
    requires Sane(g, s) && Acyclic(g, rank) && ClosedUnderDeps(g, among)
    requires n in g && n in among && !s[n].phase.Returned?
    ensures Enabled(g, s, m) && m in among
    decreases if n in rank then rank[n] else 0
  {
    if Enabled(g, s, n) {
      m := n;
    } else {
      m := SomeNodeCanStep(g, rank, s, among, g[n].dependsOn[s[n].phase.next]);
    }
  }

  // ---------- the final statuses, recursively ----------

  /** The status node n ends with, whatever the interleaving: it acts only if every known
      dependency succeeded; otherwise the first one, in declared order, that did not decides. */
  ghost function Final(g: Graph, rank: Ranks, pre: set<string>, gate: string, out: map<string, Outcome>,
      n: string): (s: Status)
    requires Acyclic(g, rank) && n in g && g.Keys <= out.Keys
    ensures Settled(s)
    decreases rank[n], |g[n].dependsOn| + 1
  {
    if n in pre then Success else FinalFrom(g, rank, pre, gate, out, n, 0)
  }

  ghost function FinalFrom(g: Graph, rank: Ranks, pre: set<string>, gate: string, out: map<string, Outcome>,
      n: string, k: nat): (s: Status)
    requires Acyclic(g, rank) && n in g && g.Keys <= out.Keys
    requires k <= |g[n].dependsOn|
    ensures Settled(s)
    decreases rank[n], |g[n].dependsOn| - k
  {
    if k == |g[n].dependsOn| then OwnStatus(g[n], gate, out[n])
    else
      var dep := g[n].dependsOn[k];
      if dep in g && Blocks(Final(g, rank, pre, gate, out, dep)) then Cascade(Final(g, rank, pre, gate, out, dep))
      else FinalFrom(g, rank, pre, gate, out, n, k + 1)
  }

  /** All known dependencies of n end in success. */
  ghost predicate AllDepsSucceed(g: Graph, rank: Ranks, pre: set<string>, gate: string, out: map<string, Outcome>,
      n: string)
    requires Acyclic(g, rank) && n in g && g.Keys <= out.Keys
  {
    forall d <- g[n].dependsOn | d in g :: Final(g, rank, pre, gate, out, d) == Success
  }

  /** The k-th dependency of n is the first, in declared order, that does not end in success. */
  ghost predicate FirstNotSuccess(g: Graph, rank: Ranks, pre: set<string>, gate: string, out: map<string, Outcome>,
      n: string, k: nat)
    requires Acyclic(g, rank) && n in g && g.Keys <= out.Keys
  {
    && k < |g[n].dependsOn| && g[n].dependsOn[k] in g && Final(g, rank, pre, gate, out, g[n].dependsOn[k]) != Success
    && forall j | 0 <= j < k && g[n].dependsOn[j] in g ::
         Final(g, rank, pre, gate, out, g[n].dependsOn[j]) == Success
  }

  lemma {:induction false} FinalFromExactly(g: Graph, rank: Ranks, pre: set<string>, gate: string,
      out: map<string, Outcome>, n: string, k: nat)
    requires Acyclic(g, rank) && n in g && g.Keys <= out.Keys && k <= |g[n].dependsOn|
    requires forall j | 0 <= j < k && g[n].dependsOn[j] in g ::
      Final(g, rank, pre, gate, out, g[n].dependsOn[j]) == Success
    ensures var final := FinalFrom(g, rank, pre, gate, out, n, k);
      if AllDepsSucceed(g, rank, pre, gate, out, n) then final == OwnStatus(g[n], gate, out[n])
      else exists i: nat :: FirstNotSuccess(g, rank, pre, gate, out, n, i)
             && final == Cascade(Final(g, rank, pre, gate, out, g[n].dependsOn[i]))
    decreases |g[n].dependsOn| - k
  {
    if k < |g[n].dependsOn| {
      var d := g[n].dependsOn[k];
      if d in g && Final(g, rank, pre, gate, out, d) != Success {
        assert FirstNotSuccess(g, rank, pre, gate, out, n, k);
      } else {
        FinalFromExactly(g, rank, pre, gate, out, n, k + 1);
      }
    }
  }

  /** What a node ends as, by what the step declares and what the world answers. A condition that cannot
      be evaluated keeps a step with a human gate and skips any other; a gate passes only where the
      segment was resumed at it; the first dependency without success decides how a node cascades. */
  lemma FinalExactly(g: Graph, rank: Ranks, pre: set<string>, gate: string, out: map<string, Outcome>, n: string)
    requires Acyclic(g, rank) && n in g && g.Keys <= out.Keys
    ensures n in pre ==> Final(g, rank, pre, gate, out, n) == Success
    ensures n !in pre && AllDepsSucceed(g, rank, pre, gate, out, n) ==>
      var step, o, final := g[n], out[n], Final(g, rank, pre, gate, out, n);
      var runs := step.when == "" || o.cond == Holds || (o.cond == Unevaluable && step.humanGate != "");
      var called := o.call == Invoked(true, true);
      && (!runs ==> final == if step.humanGate == "" && !o.skipJournaled then Failed else Skipped)
      && (runs && step.agent != "" ==> final == if called then Success else Failed)
      && (runs && step.agent == "" && step.humanGate != "" ==>
            final == if step.humanGate == gate && !o.cleared then Success
                     else if o.pause == PauseSaved then Paused else Failed)
      && (runs && step.agent == "" && step.humanGate == "" ==>
            final == if step.analyst || step.tool == "system.save_preference" || called then Success else Failed)
    ensures n !in pre && !AllDepsSucceed(g, rank, pre, gate, out, n) ==>
      exists k: nat :: FirstNotSuccess(g, rank, pre, gate, out, n, k) &&
        var first := Final(g, rank, pre, gate, out, g[n].dependsOn[k]);
        Final(g, rank, pre, gate, out, n)
          == if first == Paused || first == CascadedPause then CascadedPause else CascadedSkip
  {
    if n !in pre {
      FinalFromExactly(g, rank, pre, gate, out, n, 0);
    }
  }

  /** A gate whose condition cannot be evaluated never ends as skipped. */
  lemma UnevaluableGateIsKept(g: Graph, rank: Ranks, pre: set<string>, gate: string, out: map<string, Outcome>,
      n: string)
    requires Acyclic(g, rank) && n in g && g.Keys <= out.Keys
    requires g[n].humanGate != "" && out[n].cond == Unevaluable
    ensures Final(g, rank, pre, gate, out, n) != Skipped
  {
    FinalExactly(g, rank, pre, gate, out, n);
  }

  /** Every status already settled is the final one, and every node still on its way to one can
      only reach it. */
  ghost predicate OnCourse(g: Graph, rank: Ranks, pre: set<string>, gate: string, out: map<string, Outcome>,
      s: Nodes, n: string)
    requires Acyclic(g, rank) && g.Keys <= out.Keys && g.Keys == s.Keys && n in g
  {
    var final := Final(g, rank, pre, gate, out, n);
    match s[n].phase
    case Waiting(k) => n !in pre ==> k <= |g[n].dependsOn| && final == FinalFrom(g, rank, pre, gate, out, n, k)
    case Acting => final == ActStatus(g[n], gate, out[n])
    case Closing => s[n].status == final
    case Returned => s[n].status == final
  }

  ghost predicate AllOnCourse(g: Graph, rank: Ranks, pre: set<string>, gate: string, out: map<string, Outcome>,
      s: Nodes)
  {
    && Acyclic(g, rank) && g.Keys <= out.Keys && g.Keys == s.Keys
    && forall n <- g :: OnCourse(g, rank, pre, gate, out, s, n)
  }

  lemma ClosedHasFinalStatus(g: Graph, rank: Ranks, pre: set<string>, gate: string, out: map<string, Outcome>,
      s: Nodes, d: string)
    requires Inv(g, pre, s) && AllOnCourse(g, rank, pre, gate, out, s)
    requires d in g && s[d].closes > 0
    ensures s[d].status == Final(g, rank, pre, gate, out, d)
  {
    assert NodeInv(g, pre, s, d) && OnCourse(g, rank, pre, gate, out, s, d);
  }

  lemma StepKeepsCourse(g: Graph, rank: Ranks, pre: set<string>, gate: string, out: map<string, Outcome>, s: Nodes,
      n: string)
    requires Inv(g, pre, s) && AllOnCourse(g, rank, pre, gate, out, s)
    requires Enabled(g, s, n)
    ensures AllOnCourse(g, rank, pre, gate, out, NodeStep(g, gate, s, n, out[n]))
  {
    var s' := NodeStep(g, gate, s, n, out[n]);
    forall m <- g
      ensures OnCourse(g, rank, pre, gate, out, s', m)
    {
      assert OnCourse(g, rank, pre, gate, out, s, m);
      if m == n {
        assert NodeInv(g, pre, s, n);
        if s[n].phase.Waiting? && s[n].phase.next < |g[n].dependsOn| {
          var dep := g[n].dependsOn[s[n].phase.next];
          if dep in g {
            ClosedHasFinalStatus(g, rank, pre, gate, out, s, dep);
            if n in pre {
              DependencyDoesNotBlock(g, pre, s, n, dep);
            }
          }
        }
      }
    }
  }

  lemma StepKeepsAll(g: Graph, rank: Ranks, pre: set<string>, gate: string, out: map<string, Outcome>, s: Nodes,
      n: string)
    requires Inv(g, pre, s) && AllOnCourse(g, rank, pre, gate, out, s) && Enabled(g, s, n)
    ensures var s' := NodeStep(g, gate, s, n, out[n]);
      Inv(g, pre, s') && AllOnCourse(g, rank, pre, gate, out, s') && Remaining(g, s') < Remaining(g, s)
  {
    StepKeepsInv(g, pre, gate, s, n, out[n]);
    StepKeepsCourse(g, rank, pre, gate, out, s, n);
    InvIsSane(g, pre, s);
    StepShrinksWork(g, gate, s, n, out[n]);
  }

  lemma ReturnedHasFinalStatus(g: Graph, rank: Ranks, pre: set<string>, gate: string, out: map<string, Outcome>,
      s: Nodes, n: string)
    requires Inv(g, pre, s) && AllOnCourse(g, rank, pre, gate, out, s)
    requires n in g && s[n].phase.Returned?
    ensures s[n].status == Final(g, rank, pre, gate, out, n) && s[n].closes == 1
  {
    assert NodeInv(g, pre, s, n) && OnCourse(g, rank, pre, gate, out, s, n);
  }

  // ---------- whole interleavings ----------

  /** s' is reached from s by letting the nodes of `schedule` step one after the other. */
  ghost predicate Interleaving(g: Graph, gate: string, out: map<string, Outcome>, s: Nodes, schedule: seq<string>,
      s': Nodes)
  {
    if schedule == [] then s' == s
    else
      && schedule[0] in out
      && Enabled(g, s, schedule[0])
      && Interleaving(g, gate, out, NodeStep(g, gate, s, schedule[0], out[schedule[0]]), schedule[1..], s')
  }

  lemma {:induction false} InterleavingKeeps(g: Graph, rank: Ranks, pre: set<string>, gate: string, out: map<string,
      Outcome>, s: Nodes, schedule: seq<string>, s': Nodes)
    requires Inv(g, pre, s) && AllOnCourse(g, rank, pre, gate, out, s)
    requires Interleaving(g, gate, out, s, schedule, s')
    ensures Inv(g, pre, s') && AllOnCourse(g, rank, pre, gate, out, s')
    decreases |schedule|
  {
    if schedule != [] {
      var n := schedule[0];
      StepKeepsInv(g, pre, gate, s, n, out[n]);
      StepKeepsCourse(g, rank, pre, gate, out, s, n);
      InterleavingKeeps(g, rank, pre, gate, out, NodeStep(g, gate, s, n, out[n]), schedule[1..], s');
    }
  }

  /** Any other step whose condition cannot be evaluated never acts. */
  lemma {:induction false} UnevaluableActionNeverActs(g: Graph, gate: string, out: map<string, Outcome>, s: Nodes,
      schedule: seq<string>, s': Nodes, n: string)
    requires Interleaving(g, gate, out, s, schedule, s') && n in g && n in s && n in out
    requires g[n].when != "" && g[n].humanGate == "" && out[n].cond == Unevaluable
    requires !s[n].phase.Acting? && !s[n].status.Running?
    ensures n in s' && !s'[n].phase.Acting? && !s'[n].status.Running?
    decreases |schedule|
  {
    if schedule != [] {
      var next := NodeStep(g, gate, s, schedule[0], out[schedule[0]]);
      UnevaluableActionNeverActs(g, gate, out, next, schedule[1..], s', n);
    }
  }

  /** With each step's own outcome fixed, every interleaving of the goroutines that comes to its
      end gives every node its recursive status, and closes every channel exactly once. */
  lemma EveryInterleavingEndsAlike(g: Graph, rank: Ranks, completed: set<string>, gate: string, out: map<string,
      Outcome>, schedule: seq<string>, s': Nodes)
    requires Acyclic(g, rank) && g.Keys <= out.Keys && Settles(g, completed)
    requires Interleaving(g, gate, out, InitialNodes(g, completed), schedule, s') && AllReturned(s')
    ensures s'.Keys == g.Keys
    ensures forall n <- g :: s'[n].status == Final(g, rank, completed, gate, out, n) && s'[n].closes == 1
  {
    InitialInv(g, completed);
    InterleavingKeeps(g, rank, completed, gate, out, InitialNodes(g, completed), schedule, s');
    AllReturnedAreFinal(g, rank, completed, gate, out, s');
  }

  lemma AllReturnedAreFinal(g: Graph, rank: Ranks, pre: set<string>, gate: string, out: map<string, Outcome>,
      s: Nodes)
    requires Inv(g, pre, s) && AllOnCourse(g, rank, pre, gate, out, s) && AllReturned(s)
    ensures forall n <- g :: s[n].status == Final(g, rank, pre, gate, out, n) && s[n].closes == 1
  {
    forall n <- g
      ensures s[n].status == Final(g, rank, pre, gate, out, n) && s[n].closes == 1
    {
      ReturnedHasFinalStatus(g, rank, pre, gate, out, s, n);
    }
  }

  lemma NotAllReturnedCanStep(g: Graph, rank: Ranks, pre: set<string>, s: Nodes)
    requires Inv(g, pre, s) && Acyclic(g, rank) && !AllReturned(s)
    ensures exists n :: n in s && Enabled(g, s, n)
  {
    InvIsSane(g, pre, s);
    var stuck :| stuck in s && !s[stuck].phase.Returned?;
    var n := SomeNodeCanStep(g, rank, s, g.Keys, stuck);
  }

  /** From any configuration the goroutines of steps that depend on no others can all be brought to
      their end: with StepShrinksWork, wg.Wait returns. */
  lemma {:induction false} EveryRunCanEnd(g: Graph, rank: Ranks, gate: string, out: map<string, Outcome>, s: Nodes,
      among: set<string>) returns (schedule: seq<string>, s': Nodes)
    requires Sane(g, s) && Acyclic(g, rank) && g.Keys <= out.Keys && ClosedUnderDeps(g, among) && among <= g.Keys
    ensures Interleaving(g, gate, out, s, schedule, s') && Sane(g, s')
    ensures forall n <- schedule :: n in among
    ensures forall n <- among :: s'[n].phase.Returned?
    decreases Remaining(g, s)
  {
    if forall n <- among :: s[n].phase.Returned? {
      schedule, s' := [], s;
    } else {
      var n :| n in among && !s[n].phase.Returned?;
      var m := SomeNodeCanStep(g, rank, s, among, n);
      StepKeepsSane(g, gate, s, m, out[m]);
      StepShrinksWork(g, gate, s, m, out[m]);
      var rest;
      rest, s' := EveryRunCanEnd(g, rank, gate, out, NodeStep(g, gate, s, m, out[m]), among);
      schedule := [m] + rest;
    }
  }

  // ---------- the executor ----------

  /** The run ends with a completion message only if no node failed, paused, or waits on a pause. */
  ghost predicate Completes(g: Graph, rank: Ranks, pre: set<string>, gate: string, out: map<string, Outcome>)
    requires Acyclic(g, rank) && g.Keys <= out.Keys
  {
    forall n <- g ::
      var f := Final(g, rank, pre, gate, out, n);
      !f.Failed? && !f.Paused? && !f.CascadedPause?
  }

  class DagExecutor {
    var steps: Graph
    var nodes: Nodes

    constructor ()
      ensures steps == map[] && nodes == map[]
    {
      steps, nodes := map[], map[];
    }

    /** Builds the node map, a later step of the same name winning. */
    method BuildNodes(declared: seq<Step>)
      modifies this
      ensures steps == NodeMap(declared)
      ensures nodes == InitialNodes(steps, {})
    {
      steps, nodes := map[], map[];
      for i := 0 to |declared|
        invariant steps == NodeMap(declared[..i])
        invariant nodes == InitialNodes(steps, {})
      {
        assert declared[..i + 1][..i] == declared[..i];
        var name := NodeName(declared[i]);
        steps := steps[name := declared[i]];
        nodes := nodes[name := Node(Pending, Waiting(0), 0)];
      }
      assert declared[..|declared|] == declared;
    }

    /** Marks the steps an earlier segment completed and closes their channels; a list that names
        a known step twice makes it panic. */
    method CloseCompleted(completed: seq<string>) returns (ok: bool)
      requires nodes == InitialNodes(steps, {})
      modifies this`nodes
      ensures ok <==> !NamesTwice(steps, completed)
      ensures ok ==> nodes == InitialNodes(steps, set c | c in completed)
    {
      for i := 0 to |completed|
        invariant nodes == InitialNodes(steps, set c | c in completed[..i])
        invariant !NamesTwice(steps, completed[..i])
      {
        assert completed[..i + 1] == completed[..i] + [completed[i]];
        if completed[i] in nodes {
          var node := nodes[completed[i]];
          if node.closes > 0 {
            var j :| 0 <= j < i && completed[j] == completed[i];
            return false;
          }
          nodes := nodes[completed[i] := Node(Success, node.phase, node.closes + 1)];
        }
      }
      assert completed[..|completed|] == completed;
      return true;
    }

    /** One atomic step of node n's goroutine. */
    method Advance(n: string, gate: string, o: Outcome)
      requires Enabled(steps, nodes, n)
      modifies this`nodes
      ensures nodes == NodeStep(steps, gate, old(nodes), n, o)
    {
      var node, step := nodes[n], steps[n];
      match node.phase
      case Waiting(k) =>
        if k < |step.dependsOn| {
          var dep := step.dependsOn[k];
          if dep in nodes && Blocks(nodes[dep].status) {
            var depStatus := nodes[dep].status;
            if depStatus.Paused? || depStatus.CascadedPause? {
              nodes := nodes[n := node.(status := CascadedPause, phase := Closing)];
            } else {
              nodes := nodes[n := node.(status := CascadedSkip, phase := Closing)];
            }
          } else {
            nodes := nodes[n := node.(phase := Waiting(k + 1))];
          }
        } else if node.status.Success? {
          nodes := nodes[n := node.(phase := Returned)];
        } else if !StepShouldRun(step, o.cond) {
          if step.humanGate == "" && !o.skipJournaled {
            nodes := nodes[n := node.(status := Failed, phase := Closing)];
          } else {
            nodes := nodes[n := node.(status := Skipped, phase := Closing)];
          }
        } else {
          nodes := nodes[n := node.(status := Running, phase := Acting)];
        }
      case Acting =>
        var status := Failed;
        if step.agent != "" {
          status := CallStatus(o.call);
        } else if step.humanGate != "" {
          if Passes(step, gate, o) {
            status := Success;
          } else if o.pause.PauseSaved? {
            status := Paused;
          }
        } else if step.analyst || step.tool == SAVE_PREFERENCE {
          status := Success;
        } else {
          status := CallStatus(o.call);
        }
        nodes := nodes[n := node.(status := status, phase := Closing)];
      case Closing =>
        nodes := nodes[n := node.(closes := node.closes + 1, phase := Returned)];
    }

    /** Runs the goroutines in an order nobody chooses until all have returned, then gives the
        verdict. */
    method Run(gate: string, out: map<string, Outcome>, ghost rank: Ranks, ghost pre: set<string>)
        returns (completes: bool)
      requires Settles(steps, pre) && Acyclic(steps, rank) && steps.Keys <= out.Keys
      requires nodes == InitialNodes(steps, pre)
      modifies this`nodes
      ensures nodes.Keys == steps.Keys && AllReturned(nodes)
      ensures forall n <- steps :: nodes[n].status == Final(steps, rank, pre, gate, out, n) && nodes[n].closes == 1
      ensures completes <==> Completes(steps, rank, pre, gate, out)
    {
      InitialInv(steps, pre);
      while exists n :: n in nodes && !nodes[n].phase.Returned?
        invariant Inv(steps, pre, nodes) && AllOnCourse(steps, rank, pre, gate, out, nodes)
        decreases Remaining(steps, nodes)
      {
        NotAllReturnedCanStep(steps, rank, pre, nodes);
        var n :| n in nodes && Enabled(steps, nodes, n);
        StepKeepsAll(steps, rank, pre, gate, out, nodes, n);
        Advance(n, gate, out[n]);
      }
      AllReturnedAreFinal(steps, rank, pre, gate, out, nodes);
      completes := Verdict();
    }

    /** After wg.Wait: nothing failed, paused, or waits on a pause. */
    method Verdict() returns (completes: bool)
      ensures completes <==> forall n <- nodes ::
        !nodes[n].status.Failed? && !nodes[n].status.Paused? && !nodes[n].status.CascadedPause?
    {
      var paused, failed := false, false;
      var left := nodes.Keys;
      while left != {}
        invariant left <= nodes.Keys
        invariant paused <==> exists n ::
          n in nodes.Keys - left && (nodes[n].status.Paused? || nodes[n].status.CascadedPause?)
        invariant failed <==> exists n :: n in nodes.Keys - left && nodes[n].status.Failed?
      {
        var n :| n in left;
        if nodes[n].status.Paused? || nodes[n].status.CascadedPause? {
          paused := true;
        }
        if nodes[n].status.Failed? {
          failed := true;
        }
        left := left - {n};
      }
      completes := !(paused || failed);
    }
  }
}
