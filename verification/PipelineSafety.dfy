/** The static check that refuses a pipeline running a dangerous tool before any human approval. */
module PipelineSafety {
  import opened Pipelines

  datatype ToolMode = Read | Write | Dangerous

  // ---------- ancestors through depends_on ----------

  /** path starts at one of the declared dependencies and follows depends_on through known steps. */
  ghost predicate Chain(g: map<string, Step>, deps: seq<string>, path: seq<string>)
  {
    && path != []
    && path[0] in deps
    && (forall k | 0 <= k < |path| :: path[k] in g)
    && (forall k | 0 <= k < |path| - 1 :: path[k + 1] in g[path[k]].dependsOn)
  }

  ghost predicate EndsAt(g: map<string, Step>, deps: seq<string>, path: seq<string>, a: string)
  {
    Chain(g, deps, path) && path[|path| - 1] == a
  }

  ghost predicate Ancestor(g: map<string, Step>, deps: seq<string>, a: string)
  {
    exists path :: EndsAt(g, deps, path, a)
  }

  lemma ChainGrows(g: map<string, Step>, deps: seq<string>, path: seq<string>, d: string)
    requires Chain(g, deps, path) && d in g[path[|path| - 1]].dependsOn && d in g
    ensures EndsAt(g, deps, path + [d], d)
  {
    var longer := path + [d];
    forall k | 0 <= k < |longer| - 1
      ensures longer[k + 1] in g[longer[k]].dependsOn
    {
      if k < |path| - 1 {
        assert path[k + 1] in g[path[k]].dependsOn;
      }
    }
  }

  lemma AncestorsDependencyIsAncestor(g: map<string, Step>, deps: seq<string>, x: string, d: string)
    requires x in g && Ancestor(g, deps, x) && d in g[x].dependsOn && d in g
    ensures Ancestor(g, deps, d)
  {
    var path :| EndsAt(g, deps, path, x);
    ChainGrows(g, deps, path, d);
  }

  /** What follows the first step of a chain is a chain from it. */
  lemma ChainTail(g: map<string, Step>, deps: seq<string>, path: seq<string>)
    requires Chain(g, deps, path) && |path| > 1
    ensures Chain(g, g[path[0]].dependsOn, path[1..]) && path[1..][|path| - 2] == path[|path| - 1]
  {
    assert path[0 + 1] in g[path[0]].dependsOn;
    forall k | 0 <= k < |path[1..]| - 1
      ensures path[1..][k + 1] in g[path[1..][k]].dependsOn
    {
      assert path[k + 1 + 1] in g[path[k + 1]].dependsOn;
    }
  }

  ghost predicate HasGateAncestor(g: map<string, Step>, deps: seq<string>)
  {
    exists a :: Ancestor(g, deps, a) && a in g && g[a].humanGate != ""
  }

  /** A name that the search may put on its worklist: known or not, it is declared by the step or
      by one of its ancestors. */
  ghost predicate Named(g: map<string, Step>, deps: seq<string>, x: string)
  {
    x in deps || exists b :: Ancestor(g, deps, b) && b in g && x in g[b].dependsOn
  }

  lemma NamedAndKnownIsAncestor(g: map<string, Step>, deps: seq<string>, x: string)
    requires Named(g, deps, x) && x in g
    ensures Ancestor(g, deps, x)
  {
    if x in deps {
      assert EndsAt(g, deps, [x], x);
    } else {
      var b :| Ancestor(g, deps, b) && b in g && x in g[b].dependsOn;
      var path :| EndsAt(g, deps, path, b);
      assert EndsAt(g, deps, path + [x], x);
    }
  }

  /** What the search has visited when its worklist is empty: everything reachable, and no gate. */
  ghost predicate Swept(g: map<string, Step>, deps: seq<string>, seen: set<string>)
  {
    && (forall x <- deps :: x in seen)
    && (forall x <- seen | x in g :: g[x].humanGate == "" && forall y <- g[x].dependsOn :: y in seen)
  }

  lemma {:induction false} SweptChainIsSeen(g: map<string, Step>, deps: seq<string>, seen: set<string>,
      path: seq<string>, k: nat)
    requires Swept(g, deps, seen) && Chain(g, deps, path) && k < |path|
    ensures path[k] in seen
  {
    if k > 0 {
      SweptChainIsSeen(g, deps, seen, path, k - 1);
      assert path[k - 1 + 1] in g[path[k - 1]].dependsOn;
    }
  }

  lemma SweptMeansNoGate(g: map<string, Step>, deps: seq<string>, seen: set<string>)
    requires Swept(g, deps, seen)
    ensures !HasGateAncestor(g, deps)
  {
    forall a | Ancestor(g, deps, a) && a in g
      ensures g[a].humanGate == ""
    {
      var path :| EndsAt(g, deps, path, a);
      SweptChainIsSeen(g, deps, seen, path, |path| - 1);
    }
  }

  /** Every name the search can meet. */
  ghost function Universe(g: map<string, Step>, deps: seq<string>): set<string>
  {
    (set x | x in deps) + (set n, x | n in g && x in g[n].dependsOn :: x)
  }

  /** The steps by the label the check uses, filled in a loop, a later step winning. */
  method BuildByLabel(steps: seq<Step>) returns (byID: map<string, Step>)
    ensures byID == LabelMap(steps)
  {
    byID := map[];
    for j := 0 to |steps|
      invariant byID == LabelMap(steps[..j])
    {
      assert steps[..j + 1][..j] == steps[..j];
      byID := byID[StepLabel(steps[j], j) := steps[j]];
    }
    assert steps[..|steps|] == steps;
  }

  /** approvedBefore for a DAG: a worklist search over depends_on, cyclic declarations included. */
  method SearchGate(byID: map<string, Step>, deps: seq<string>) returns (found: bool)
    ensures found <==> HasGateAncestor(byID, deps)
  {
    var seen: set<string> := {};
    var pending := deps;
    ghost var u := Universe(byID, deps);
    while pending != []
      invariant forall x <- pending :: x in u && Named(byID, deps, x)
      invariant forall x <- deps :: x in seen || x in pending
      invariant forall x <- seen | x in byID ::
        byID[x].humanGate == "" && forall y <- byID[x].dependsOn :: y in seen || y in pending
      decreases u - seen, |pending|
    {
      var id := pending[|pending| - 1];
      ghost var before := pending;
      pending := pending[..|pending| - 1];
      assert forall x <- before :: x == id || x in pending;
      if id in seen {
        continue;
      }
      seen := seen + {id};
      if id !in byID {
        continue;
      }
      NamedAndKnownIsAncestor(byID, deps, id);
      if byID[id].humanGate != "" {
        return true;
      }
      pending := pending + byID[id].dependsOn;
    }
    assert Swept(byID, deps, seen);
    SweptMeansNoGate(byID, deps, seen);
    return false;
  }

  // ---------- the check of one step and of all pipelines ----------

  /** What the check promises for step i: an earlier gate, or in a DAG an ancestor gate. */
  ghost predicate Approved(pipe: Pipeline, i: nat)
    requires i < |pipe.steps|
  {
    if pipe.dag then HasGateAncestor(LabelMap(pipe.steps), pipe.steps[i].dependsOn)
    else exists j | 0 <= j < i :: pipe.steps[j].humanGate != ""
  }

  method ApprovedBefore(pipe: Pipeline, i: nat) returns (approved: bool)
    requires i < |pipe.steps|
    ensures approved <==> Approved(pipe, i)
  {
    if !pipe.dag {
      for j := 0 to i
        invariant forall k | 0 <= k < j :: pipe.steps[k].humanGate == ""
      {
        if pipe.steps[j].humanGate != "" {
          return true;
        }
      }
      return false;
    }
    var byID := BuildByLabel(pipe.steps);
    approved := SearchGate(byID, pipe.steps[i].dependsOn);
  }

  predicate IsSpace(c: char)
  {
    || '\t' <= c <= '\r' || c == ' ' || c == '\U{0085}' || c == '\U{00A0}' || c == '\U{1680}'
    || '\U{2000}' <= c <= '\U{200A}' || '\U{2028}' <= c <= '\U{2029}'
    || c == '\U{202F}' || c == '\U{205F}' || c == '\U{3000}'
  }

  /** A reason made of white space only states nothing. */
  predicate StatesReason(s: string)
  {
    exists k | 0 <= k < |s| :: !IsSpace(s[k])
  }

  predicate IsDangerous(step: Step, tools: map<string, ToolMode>)
  {
    step.tool in tools && tools[step.tool] == Dangerous
  }

  /** A step the check guards: it runs a dangerous tool and states no reason to go unapproved. */
  predicate Guarded(step: Step, tools: map<string, ToolMode>)
  {
    IsDangerous(step, tools) && !StatesReason(step.noApprovalReason)
  }

  ghost predicate Safe(pipe: Pipeline, tools: map<string, ToolMode>)
  {
    forall i: nat | i < |pipe.steps| && Guarded(pipe.steps[i], tools) :: Approved(pipe, i)
  }

  /** The white space of Unicode. */
  const WHITE_SPACE: set<char> := {
    '\t', '\n', '\U{000B}', '\U{000C}', '\r', ' ', '\U{0085}', '\U{00A0}', '\U{1680}',
    '\U{2000}', '\U{2001}', '\U{2002}', '\U{2003}', '\U{2004}', '\U{2005}', '\U{2006}', '\U{2007}', '\U{2008}',
    '\U{2009}', '\U{200A}', '\U{2028}', '\U{2029}', '\U{202F}', '\U{205F}', '\U{3000}'}

  lemma SpacesAreListed(c: char)
    ensures IsSpace(c) <==> c in WHITE_SPACE
  {
  }

  /** Step i of pipeline p runs a tool that is declared dangerous, and gives no reason but white space for
      doing so without approval. */
  ghost predicate NeedsApproval(step: Step, tools: map<string, ToolMode>)
  {
    && step.tool in tools && tools[step.tool] == Dangerous
    && forall c <- step.noApprovalReason :: c in WHITE_SPACE
  }

  lemma GuardedExactly(step: Step, tools: map<string, ToolMode>)
    ensures Guarded(step, tools) <==> NeedsApproval(step, tools)
  {
    forall c: char
      ensures IsSpace(c) <==> c in WHITE_SPACE
    {
      SpacesAreListed(c);
    }
  }

  /** A gate comes before step i: in the list, or in a DAG at the end of a chain of known depends_on
      entries. */
  ghost predicate GateBefore(pipe: Pipeline, i: nat)
    requires i < |pipe.steps|
  {
    if pipe.dag then
      var g := LabelMap(pipe.steps);
      exists path :: EndsAtGate(g, pipe.steps[i].dependsOn, path)
    else exists j: nat | j < i :: pipe.steps[j].humanGate != ""
  }

  ghost predicate EndsAtGate(g: map<string, Step>, deps: seq<string>, path: seq<string>)
  {
    && path != [] && path[0] in deps && (forall k | 0 <= k < |path| :: path[k] in g)
    && (forall k | 0 <= k < |path| - 1 :: path[k + 1] in g[path[k]].dependsOn)
    && g[path[|path| - 1]].humanGate != ""
  }

  lemma ApprovedExactly(pipe: Pipeline, i: nat)
    requires i < |pipe.steps|
    ensures Approved(pipe, i) <==> GateBefore(pipe, i)
  {
    var g, deps := LabelMap(pipe.steps), pipe.steps[i].dependsOn;
    if pipe.dag && Approved(pipe, i) {
      var a :| Ancestor(g, deps, a) && a in g && g[a].humanGate != "";
      var path :| EndsAt(g, deps, path, a);
      assert EndsAtGate(g, deps, path);
    }
    if pipe.dag && GateBefore(pipe, i) {
      var path :| EndsAtGate(g, deps, path);
      assert EndsAt(g, deps, path, path[|path| - 1]);
      assert Ancestor(g, deps, path[|path| - 1]);
    }
  }

  /** A pipeline loads if and only if a gate comes before each step that needs an approval; tools that
      only read or write need none. */
  lemma SafeExactly(pipe: Pipeline, tools: map<string, ToolMode>)
    ensures Safe(pipe, tools) <==>
      forall i: nat | i < |pipe.steps| && NeedsApproval(pipe.steps[i], tools) :: GateBefore(pipe, i)
  {
    forall i: nat | i < |pipe.steps|
      ensures Guarded(pipe.steps[i], tools) <==> NeedsApproval(pipe.steps[i], tools)
      ensures Approved(pipe, i) <==> GateBefore(pipe, i)
    {
      GuardedExactly(pipe.steps[i], tools);
      ApprovedExactly(pipe, i);
    }
  }

  /** A dangerous tool that no gate precedes is refused, unless a reason is given for it. */
  lemma UngatedIsRefused(pipe: Pipeline, tools: map<string, ToolMode>, i: nat)
    requires i < |pipe.steps| && !GateBefore(pipe, i)
    requires pipe.steps[i].tool in tools && tools[pipe.steps[i].tool] == Dangerous
    ensures Safe(pipe, tools) ==> exists c :: c in pipe.steps[i].noApprovalReason && c !in WHITE_SPACE
  {
    SafeExactly(pipe, tools);
  }

  /** Tools that only read or write are never refused. */
  lemma OthersAreNotRefused(pipe: Pipeline, tools: map<string, ToolMode>)
    requires forall step <- pipe.steps | step.tool in tools :: tools[step.tool] == Read || tools[step.tool] == Write
    ensures Safe(pipe, tools)
  {
    SafeExactly(pipe, tools);
  }

  /** validatePipelineSafety: the refused (pipeline, step) pairs, in order. The definitions load
      when there is none. */
  method ValidatePipelineSafety(pipelines: seq<Pipeline>, tools: map<string, ToolMode>)
      returns (problems: seq<(nat, nat)>)
    ensures problems == [] <==> forall p <- pipelines :: Safe(p, tools)
    ensures forall p: nat, i: nat :: (p, i) in problems <==>
      p < |pipelines| && i < |pipelines[p].steps| && NeedsApproval(pipelines[p].steps[i], tools)
      && !GateBefore(pipelines[p], i)
  {
    problems := [];
    for p := 0 to |pipelines|
      invariant forall q: nat, i: nat :: (q, i) in problems <==>
        q < p && i < |pipelines[q].steps| && Guarded(pipelines[q].steps[i], tools) && !Approved(pipelines[q], i)
    {
      var pipe := pipelines[p];
      for i := 0 to |pipe.steps|
        invariant forall q: nat, k: nat :: (q, k) in problems <==>
          ((q < p && k < |pipelines[q].steps|) || (q == p && k < i)) &&
          Guarded(pipelines[q].steps[k], tools) && !Approved(pipelines[q], k)
      {
        if !IsDangerous(pipe.steps[i], tools) {
          continue;
        }
        var approved := ApprovedBefore(pipe, i);
        if approved || StatesReason(pipe.steps[i].noApprovalReason) {
          continue;
        }
        problems := problems + [(p, i)];
      }
    }
    if problems != [] {
      assert problems[0] in problems;
      var (p, i) := problems[0];
      assert pipelines[p] in pipelines && !Safe(pipelines[p], tools);
    } else {
      forall pipe <- pipelines
        ensures Safe(pipe, tools)
      {
        var p: nat :| p < |pipelines| && pipelines[p] == pipe;
        forall i: nat | i < |pipe.steps| && Guarded(pipe.steps[i], tools)
          ensures Approved(pipe, i)
        {
          assert (p, i) !in problems;
        }
      }
    }
    forall p: nat, i: nat | p < |pipelines| && i < |pipelines[p].steps|
      ensures Guarded(pipelines[p].steps[i], tools) <==> NeedsApproval(pipelines[p].steps[i], tools)
      ensures Approved(pipelines[p], i) <==> GateBefore(pipelines[p], i)
    {
      GuardedExactly(pipelines[p].steps[i], tools);
      ApprovedExactly(pipelines[p], i);
    }
  }
}
