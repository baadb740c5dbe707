/** Declared pipelines: the steps, the two functions that name them, and a step's condition. */
module Pipelines {

  datatype Option<+T> = None | Some(value: T)

  /** One declared step. A string that the declaration leaves out is empty. */
  datatype Step = Step(
    id: string,
    kind: string,
    agent: string,
    dependsOn: seq<string>,
    tool: string,
    withParams: seq<string>,
    analyst: bool,
    humanGate: string,
    noApprovalReason: string,
    when: string)

  /** A step that declares nothing. */
  const BLANK := Step("", "", "", [], "", [], false, "", "", "")

  datatype Pipeline = Pipeline(dag: bool, steps: seq<Step>)

  /** What evaluating a step's `when` can give. */
  datatype Condition = Holds | Fails | Unevaluable

  /** A condition that cannot be evaluated skips an action but keeps a human approval. */
  predicate StepShouldRun(step: Step, c: Condition)
  {
    if step.when == "" then true
    else if c.Unevaluable? then step.humanGate != ""
    else c.Holds?
  }

  // ---------- names ----------

  predicate Contains(s: string, part: string)
  {
    exists i: nat | i <= |s| :: part <= s[i..]
  }

  function Digit(d: nat): char
    requires d < 10
  {
    "0123456789"[d]
  }

  function Decimal(n: nat): (s: string)
    ensures s != ""
  {
    if n < 10 then [Digit(n)] else Decimal(n / 10) + [Digit(n % 10)]
  }

  /** The name the static safety check gives the i-th step. */
  function StepLabel(step: Step, i: nat): string
  {
    if step.id != "" then step.id
    else if step.tool != "" then step.tool
    else "step_" + Decimal(i)
  }

  /** The name the DAG executor gives a step. */
  function NodeName(step: Step): string
  {
    if step.id != "" then step.id
    else if step.agent != "" then "agent." + step.agent
    else step.tool
  }

  /** The check and the executor name a step alike exactly when it has an id, or it has a tool
      and no agent (or, by accident, a tool spelled like its agent). */
  lemma NamesAgreeExactly(step: Step, i: nat)
    ensures StepLabel(step, i) == NodeName(step)
       <==> step.id != "" || (step.tool != "" && (step.agent == "" || step.tool == "agent." + step.agent))
  {
    if step.id == "" && step.tool == "" {
      assert StepLabel(step, i)[0] == 's';
      if step.agent != "" {
        assert NodeName(step)[0] == 'a';
      }
    }
  }

  /** Steps by name, a later step replacing an earlier one of the same name, as a Go map built in
      a loop does. */
  function LabelMap(steps: seq<Step>): (g: map<string, Step>)
    ensures forall n <- g :: g[n] in steps
  {
    if steps == [] then map[]
    else
      var last := |steps| - 1;
      LabelMap(steps[..last])[StepLabel(steps[last], last) := steps[last]]
  }

  function NodeMap(steps: seq<Step>): (g: map<string, Step>)
    ensures forall n <- g :: g[n] in steps
  {
    if steps == [] then map[]
    else
      var last := |steps| - 1;
      NodeMap(steps[..last])[NodeName(steps[last]) := steps[last]]
  }

  /** The graph has exactly the names of the steps, each with the last step of that name. */
  ghost predicate LastOfEachName(name: (Step, nat) -> string, steps: seq<Step>, g: map<string, Step>)
  {
    && (forall n <- g :: exists i: nat | i < |steps| :: name(steps[i], i) == n && g[n] == steps[i])
    && (forall i: nat | i < |steps| :: name(steps[i], i) in g)
    && (forall i: nat | i < |steps| && (forall j: nat | i < j < |steps| :: name(steps[j], j) != name(steps[i], i)) ::
          g[name(steps[i], i)] == steps[i])
  }

  lemma LastOfEachNameNext(name: (Step, nat) -> string, steps: seq<Step>, last: nat, g: map<string, Step>)
    requires last == |steps| - 1 && LastOfEachName(name, steps[..last], g)
    ensures LastOfEachName(name, steps, g[name(steps[last], last) := steps[last]])
  {
    var init, g' := steps[..last], g[name(steps[last], last) := steps[last]];
    assert forall i: nat | i < last :: init[i] == steps[i];
    forall n <- g'
      ensures exists i: nat | i < |steps| :: name(steps[i], i) == n && g'[n] == steps[i]
    {
      if n == name(steps[last], last) {
        assert g'[n] == steps[last];
      } else {
        var i: nat :| i < |init| && name(init[i], i) == n && g[n] == init[i];
        assert steps[i] == init[i];
      }
    }
    forall i: nat | i < |steps| && (forall j: nat | i < j < |steps| :: name(steps[j], j) != name(steps[i], i))
      ensures g'[name(steps[i], i)] == steps[i]
    {
      if i < last {
        assert init[i] == steps[i] && name(steps[last], last) != name(steps[i], i);
        assert forall j: nat | i < j < last :: name(init[j], j) != name(init[i], i);
      }
    }
  }

  /** Both graphs are the last step of each name. */
  lemma {:induction false} GraphsAreLastOfEachName(steps: seq<Step>)
    ensures LastOfEachName((s: Step, i: nat) => StepLabel(s, i), steps, LabelMap(steps))
    ensures LastOfEachName((s: Step, i: nat) => NodeName(s), steps, NodeMap(steps))
  {
    if steps != [] {
      var last := |steps| - 1;
      GraphsAreLastOfEachName(steps[..last]);
      LastOfEachNameNext((s: Step, i: nat) => StepLabel(s, i), steps, last, LabelMap(steps[..last]));
      LastOfEachNameNext((s: Step, i: nat) => NodeName(s), steps, last, NodeMap(steps[..last]));
    }
  }

  ghost predicate NamesAgree(steps: seq<Step>)
  {
    forall i: nat | i < |steps| :: StepLabel(steps[i], i) == NodeName(steps[i])
  }

  lemma {:induction false} NamesAgreeGiveOneGraph(steps: seq<Step>)
    requires NamesAgree(steps)
    ensures LabelMap(steps) == NodeMap(steps)
  {
    if steps != [] {
      var init := steps[..|steps| - 1];
      assert forall i: nat | i < |init| :: init[i] == steps[i];
      NamesAgreeGiveOneGraph(init);
    }
  }

  // ---------- lists of steps ----------

  /** linearStepIDs: the labels of the steps, in order. */
  function StepIDs(steps: seq<Step>): (ids: seq<string>)
    ensures |ids| == |steps|
    ensures forall i | 0 <= i < |steps| :: ids[i] == StepLabel(steps[i], i)
  {
    seq(|steps|, i requires 0 <= i < |steps| => StepLabel(steps[i], i))
  }

  /** The position of the first analyst step, or the length if there is none. */
  function FirstAnalyst(steps: seq<Step>): (k: nat)
    ensures k <= |steps|
    ensures k < |steps| ==> steps[k].analyst
    ensures forall j | 0 <= j < k :: !steps[j].analyst
  {
    if steps == [] || steps[0].analyst then 0
    else
      var k := FirstAnalyst(steps[1..]);
      assert forall j | 0 < j < 1 + k :: steps[j] == steps[1..][j - 1];
      1 + k
  }

  /** The steps that the analyst's completion of a task records as done: those declared before the
      first analyst step. */
  function CompletionIDs(steps: seq<Step>): seq<string>
  {
    StepIDs(steps[..FirstAnalyst(steps)])
  }
}
