/** Step outputs, kept under the step's id and published to later steps as steps.<id>.<key>, and
    what a resumed execution sees of them. */
module StepOutputs {
  import opened JsonValues

  const STEPS_KEY := "_steps"

  /** The name under which a value of a group is published. */
  function Name(prefix: string, key: string): string
  {
    prefix + "." + key
  }

  lemma NameGivesKey(prefix: string, key: string)
    ensures Name(prefix, key)[|prefix| + 1..] == key
  {
  }

  /** Variables that are published together: the entries of one output. */
  datatype Group = Group(prefix: string, fields: Fields)

  predicate Names(g: Group, name: string)
  {
    |g.prefix| < |name| && name == Name(g.prefix, name[|g.prefix| + 1..]) && name[|g.prefix| + 1..] in g.fields
  }

  function ValueOf(g: Group, name: string): Json
    requires Names(g, name)
  {
    g.fields[name[|g.prefix| + 1..]]
  }

  /** The variables of a group, by their full names. */
  function Entries(g: Group): (r: Fields)
    ensures forall name :: (name in r <==> Names(g, name)) && (name in r ==> r[name] == ValueOf(g, name))
  {
    var names := set key | key in g.fields :: Name(g.prefix, key);
    assert forall name | Names(g, name) :: name in names by {
      forall name | Names(g, name)
        ensures name in names
      {
        assert name == Name(g.prefix, name[|g.prefix| + 1..]);
      }
    }
    map name | name in names && Names(g, name) :: ValueOf(g, name)
  }

  function Published(vars: Fields, g: Group): Fields
  {
    vars + Entries(g)
  }

  lemma PublishedAt(vars: Fields, g: Group, name: string)
    ensures name in Published(vars, g) <==> name in vars || Names(g, name)
    ensures name in Published(vars, g) ==> Published(vars, g)[name] == if Names(g, name) then ValueOf(g, name)
        else vars[name]
  {
  }

  /** The per-step outputs in a task's results. */
  function ByStep(results: Fields): Fields
  {
    if STEPS_KEY in results && results[STEPS_KEY].Object? then results[STEPS_KEY].fields else map[]
  }

  function Recorded(results: Fields, stepID: string, out: Fields): Fields
  {
    if stepID == "" then results else results[STEPS_KEY := Object(ByStep(results)[stepID := Object(out)])]
  }

  // ---------- restoring ----------

  function GroupOf(prefix: string, value: Json): seq<Group>
  {
    if value.Object? then [Group(prefix, value.fields)] else []
  }

  /** The groups of the per-step outputs, their ids taken in the given order. */
  function StepGroups(byStep: Fields, ids: seq<string>): seq<Group>
    requires forall id <- ids :: id in byStep
  {
    if ids == [] then []
    else
      var id := ids[|ids| - 1];
      StepGroups(byStep, ids[..|ids| - 1]) + GroupOf(Name("steps", id), byStep[id])
  }

  /** The groups in the order in which an iteration over both maps meets them. */
  function Groups(results: Fields, keys: seq<string>, ids: seq<string>): seq<Group>
    requires (forall k <- keys :: k in results) && forall id <- ids :: id in ByStep(results)
  {
    if keys == [] then []
    else
      var k := keys[|keys| - 1];
      Groups(results, keys[..|keys| - 1], ids)
      + if k == STEPS_KEY then StepGroups(ByStep(results), ids) else GroupOf(k, results[k])
  }

  function PublishAll(vars: Fields, groups: seq<Group>): Fields
  {
    if groups == [] then vars else Published(PublishAll(vars, groups[..|groups| - 1]), groups[|groups| - 1])
  }

  /** An order in which an iteration may meet the keys of a map. */
  ghost predicate Enumerates(keys: seq<string>, m: Fields)
  {
    && (forall k <- keys :: k in m)
    && (forall k <- m :: k in keys)
    && forall i, j | 0 <= i < j < |keys| :: keys[i] != keys[j]
  }

  ghost predicate Orders(results: Fields, keys: seq<string>, ids: seq<string>)
  {
    Enumerates(keys, results) && Enumerates(ids, ByStep(results))
  }

  /** restoreResultVars, for one iteration order. */
  function Restored(vars: Fields, results: Fields, keys: seq<string>, ids: seq<string>): Fields
    requires (forall k <- keys :: k in results) && forall id <- ids :: id in ByStep(results)
  {
    PublishAll(vars, Groups(results, keys, ids))
  }

  /** The group that one step's output makes. */
  predicate OfStep(byStep: Fields, id: string, g: Group)
  {
    id in byStep && byStep[id] == Object(g.fields) && g.prefix == Name("steps", id)
  }

  /** The group that one tool's, agent's or callback's result makes. */
  predicate OfResult(results: Fields, k: string, g: Group)
  {
    k in results && k != STEPS_KEY && results[k] == Object(g.fields) && g.prefix == k
  }

  /** Group g is one of those that restoring publishes. */
  ghost predicate IsGroup(results: Fields, g: Group)
  {
    OfResult(results, g.prefix, g) || exists id :: OfStep(ByStep(results), id, g)
  }

  lemma {:induction false} StepGroupsAre(byStep: Fields, ids: seq<string>, g: Group)
    requires forall id <- ids :: id in byStep
    ensures g in StepGroups(byStep, ids) <==> exists id :: id in ids && OfStep(byStep, id, g)
  {
    if ids != [] {
      var before, last := ids[..|ids| - 1], ids[|ids| - 1];
      StepGroupsAre(byStep, before, g);
      assert forall id :: id in ids <==> id in before || id == last;
      assert g in GroupOf(Name("steps", last), byStep[last]) <==> OfStep(byStep, last, g);
    }
  }

  lemma {:induction false} GroupsAre(results: Fields, keys: seq<string>, ids: seq<string>, g: Group)
    requires (forall k <- keys :: k in results) && forall id <- ids :: id in ByStep(results)
    ensures g in Groups(results, keys, ids) <==>
      || (g.prefix in keys && OfResult(results, g.prefix, g))
      || (STEPS_KEY in keys && g in StepGroups(ByStep(results), ids))
  {
    if keys != [] {
      var before, last := keys[..|keys| - 1], keys[|keys| - 1];
      GroupsAre(results, before, ids, g);
      assert forall k :: k in keys <==> k in before || k == last;
      assert last != STEPS_KEY ==>
        (g in GroupOf(last, results[last]) <==> g.prefix == last && OfResult(results, last, g));
    }
  }

  /** Every order publishes exactly the groups of the results. */
  lemma OrderedGroupsAre(results: Fields, keys: seq<string>, ids: seq<string>, g: Group)
    requires Orders(results, keys, ids)
    ensures g in Groups(results, keys, ids) <==> IsGroup(results, g)
  {
    GroupsAre(results, keys, ids, g);
    StepGroupsAre(ByStep(results), ids, g);
  }

  lemma {:induction false} AgreedValue(vars: Fields, groups: seq<Group>, name: string, value: Json)
    requires forall g <- groups :: Names(g, name) ==> ValueOf(g, name) == value
    requires exists g <- groups :: Names(g, name)
    ensures name in PublishAll(vars, groups) && PublishAll(vars, groups)[name] == value
  {
    var before, last := groups[..|groups| - 1], groups[|groups| - 1];
    PublishedAt(PublishAll(vars, before), last, name);
    if !Names(last, name) {
      var g :| g in groups && Names(g, name);
      assert groups == before + [last];
      assert g in before;
      AgreedValue(vars, before, name, value);
    }
  }

  // ---------- one value whatever the order ----------

  /** Whatever group publishes the name publishes the same value under it. */
  ghost predicate Sole(results: Fields, name: string, value: Json)
  {
    forall g | IsGroup(results, g) && Names(g, name) :: ValueOf(g, name) == value
  }

  lemma OrderEndingIn(m: Fields, last: string) returns (keys: seq<string>)
    requires last in m
    ensures Enumerates(keys, m) && keys[|keys| - 1] == last
  {
    keys := Enumeration(m - {last});
    keys := keys + [last];
  }

  lemma Enumeration(m: Fields) returns (keys: seq<string>)
    ensures Enumerates(keys, m)
    decreases |m|
  {
    if m == map[] {
      keys := [];
    } else {
      var k :| k in m;
      keys := Enumeration(m - {k});
      keys := keys + [k];
    }
  }

  /** Some order publishes group g last of all. */
  lemma OrderEndingWith(results: Fields, g: Group) returns (keys: seq<string>, ids: seq<string>)
    requires IsGroup(results, g)
    ensures Orders(results, keys, ids)
    ensures var groups := Groups(results, keys, ids); groups != [] && groups[|groups| - 1] == g
  {
    if OfResult(results, g.prefix, g) {
      keys := OrderEndingIn(results, g.prefix);
      ids := Enumeration(ByStep(results));
    } else {
      var id :| OfStep(ByStep(results), id, g);
      keys := OrderEndingIn(results, STEPS_KEY);
      ids := OrderEndingIn(ByStep(results), id);
    }
  }

  /** The output recorded for a step under a key. */
  predicate HasOutput(results: Fields, stepID: string, key: string, value: Json)
  {
    && stepID in ByStep(results) && ByStep(results)[stepID].Object?
    && key in ByStep(results)[stepID].fields && ByStep(results)[stepID].fields[key] == value
  }

  /** Restoring gives the name the value, whatever order the maps are iterated in. */
  ghost predicate AlwaysRestored(vars: Fields, results: Fields, name: string, value: Json)
  {
    forall keys, ids | Orders(results, keys, ids) ::
      name in Restored(vars, results, keys, ids) && Restored(vars, results, keys, ids)[name] == value
  }

  lemma SoleIsRestored(vars: Fields, results: Fields, own: Group, name: string, value: Json)
    requires IsGroup(results, own) && Names(own, name) && Sole(results, name, value)
    ensures AlwaysRestored(vars, results, name, value)
  {
    forall keys, ids | Orders(results, keys, ids)
      ensures name in Restored(vars, results, keys, ids) && Restored(vars, results, keys, ids)[name] == value
    {
      var groups := Groups(results, keys, ids);
      forall g <- groups
        ensures IsGroup(results, g)
      {
        OrderedGroupsAre(results, keys, ids, g);
      }
      OrderedGroupsAre(results, keys, ids, own);
      AgreedValue(vars, groups, name, value);
    }
  }

  lemma ClashIsSeen(vars: Fields, results: Fields, g: Group, name: string, value: Json)
    requires IsGroup(results, g) && Names(g, name) && ValueOf(g, name) != value
    ensures !AlwaysRestored(vars, results, name, value)
  {
    var keys, ids := OrderEndingWith(results, g);
    var groups := Groups(results, keys, ids);
    PublishedAt(PublishAll(vars, groups[..|groups| - 1]), g, name);
    assert Restored(vars, results, keys, ids)[name] != value;
  }

  /** A resumed execution reads a step's recorded output in every iteration order if and only if
      no other group publishes another value under the same name. */
  lemma RestoredExactlyWhenSole(vars: Fields, results: Fields, stepID: string, key: string, value: Json)
    requires HasOutput(results, stepID, key, value)
    ensures var name := Name(Name("steps", stepID), key);
      Sole(results, name, value) <==> AlwaysRestored(vars, results, name, value)
  {
    var name := Name(Name("steps", stepID), key);
    var own := Group(Name("steps", stepID), ByStep(results)[stepID].fields);
    NameGivesKey(own.prefix, key);
    assert OfStep(ByStep(results), stepID, own) && Names(own, name);
    if Sole(results, name, value) {
      SoleIsRestored(vars, results, own, name, value);
    } else {
      var g :| IsGroup(results, g) && Names(g, name) && ValueOf(g, name) != value;
      ClashIsSeen(vars, results, g, name, value);
    }
  }

  // ---------- which names are safe ----------

  predicate DotFree(s: string)
  {
    '.' !in s
  }

  /** A result key whose variables may look like those of a step. */
  predicate LooksLikeSteps(k: string)
  {
    k == "steps" || "steps." <= k
  }

  /** Ids are free of dots and no tool, agent or awaited step is named like a step's variables. */
  ghost predicate SafeNames(results: Fields)
  {
    && (forall id <- ByStep(results) :: DotFree(id))
    && (forall k <- results :: !LooksLikeSteps(k))
  }

  lemma DotFreeNamesDiffer(id: string, key: string, id': string, key': string)
    requires DotFree(id) && DotFree(id')
    requires Name(id, key) == Name(id', key')
    ensures id == id' && key == key'
  {
    var name := Name(id, key);
    assert name[|id|] == '.' && name[|id'|] == '.';
    assert forall i | 0 <= i < |id| :: name[i] == id[i] != '.';
    assert forall i | 0 <= i < |id'| :: name[i] == id'[i] != '.';
    assert |id| == |id'|;
    assert id == name[..|id|] == id';
    NameGivesKey(id, key);
    NameGivesKey(id', key');
  }

  /** A name that starts with "steps." is published under another key only if that key looks like steps. */
  lemma OtherKeysDoNotClash(k: string, key: string, rest: string)
    requires Name(k, key) == Name("steps", rest)
    ensures LooksLikeSteps(k)
  {
    var name := Name(k, key);
    assert name[..6] == "steps.";
    assert forall i | 0 <= i < 5 :: name[i] == name[..6][i] != '.';
    assert name[|k|] == '.';
    assert |k| >= 5;
    if |k| >= 6 {
      assert k[..6] == name[..6];
    } else {
      assert k == name[..5];
    }
  }

  lemma SafeKeyDoesNotClash(g: Group, stepID: string, key: string)
    requires !LooksLikeSteps(g.prefix)
    ensures !Names(g, Name(Name("steps", stepID), key))
  {
    var name := Name(Name("steps", stepID), key);
    if Names(g, name) {
      assert name == Name("steps", Name(stepID, key));
      OtherKeysDoNotClash(g.prefix, name[|g.prefix| + 1..], Name(stepID, key));
    }
  }

  lemma OtherStepDoesNotClash(g: Group, id: string, stepID: string, key: string)
    requires DotFree(id) && DotFree(stepID) && g.prefix == Name("steps", id)
    requires Names(g, Name(Name("steps", stepID), key))
    ensures id == stepID
  {
    var name := Name(Name("steps", stepID), key);
    var key' := name[|g.prefix| + 1..];
    assert name == Name("steps", Name(stepID, key)) == Name("steps", Name(id, key'));
    NameGivesKey("steps", Name(stepID, key));
    NameGivesKey("steps", Name(id, key'));
    DotFreeNamesDiffer(stepID, key, id, key');
  }

  lemma SafeNamesAreSole(results: Fields, stepID: string, key: string, value: Json)
    requires SafeNames(results) && HasOutput(results, stepID, key, value)
    ensures Sole(results, Name(Name("steps", stepID), key), value)
  {
    var name := Name(Name("steps", stepID), key);
    forall g | IsGroup(results, g) && Names(g, name)
      ensures ValueOf(g, name) == value
    {
      if OfResult(results, g.prefix, g) {
        SafeKeyDoesNotClash(g, stepID, key);
      } else {
        var id :| OfStep(ByStep(results), id, g);
        OtherStepDoesNotClash(g, id, stepID, key);
        NameGivesKey(g.prefix, key);
      }
    }
  }

  // ---------- what a resumed execution sees ----------

  /** A step that ran to success, or a callback's data put under the awaiting step. */
  datatype Result = Ran(stepID: string, resultKey: string, out: Fields) | Answered(awaitStep: string, data: Json)

  function ResultsAfter(history: seq<Result>): Fields
  {
    if history == [] then map[]
    else
      var before := ResultsAfter(history[..|history| - 1]);
      match history[|history| - 1]
      case Ran(stepID, resultKey, out) => Recorded(before[resultKey := Object(out)], stepID, out)
      case Answered(awaitStep, data) => before[awaitStep := data]
  }

  /** What the step with this id put out when it last ran. */
  function LastOut(history: seq<Result>, stepID: string): Fields
  {
    if history == [] then map[]
    else
      var last := history[|history| - 1];
      if last.Ran? && last.stepID == stepID then last.out else LastOut(history[..|history| - 1], stepID)
  }

  predicate SafeKey(k: string)
  {
    k != STEPS_KEY && !LooksLikeSteps(k)
  }

  predicate SafeResult(r: Result)
  {
    match r
    case Ran(stepID, resultKey, _) => DotFree(stepID) && SafeKey(resultKey)
    case Answered(awaitStep, _) => SafeKey(awaitStep)
  }

  ghost predicate SafeHistory(history: seq<Result>)
  {
    forall r <- history :: SafeResult(r)
  }

  lemma SafeBefore(history: seq<Result>)
    requires SafeHistory(history) && history != []
    ensures SafeHistory(history[..|history| - 1]) && SafeResult(history[|history| - 1])
  {
    assert history[|history| - 1] in history;
    assert forall r <- history[..|history| - 1] :: r in history;
  }

  /** Each step's last output is in the results, though others called the same tool. */
  lemma {:induction false} OutputsAreRecorded(history: seq<Result>, stepID: string)
    requires SafeHistory(history)
    ensures SafeNames(ResultsAfter(history))
    ensures stepID != "" && LastOut(history, stepID) != map[] ==>
      stepID in ByStep(ResultsAfter(history)) && ByStep(ResultsAfter(history))[stepID]
          == Object(LastOut(history, stepID))
  {
    if history != [] {
      SafeBefore(history);
      OutputsAreRecorded(history[..|history| - 1], stepID);
      assert STEPS_KEY[0] == '_';
      assert !LooksLikeSteps(STEPS_KEY);
    }
  }

  /** After any pause a later step reads, under steps.<id>.<key>, what the step put out, whatever
      the order in which the maps are iterated and whoever else called the same tool. */
  lemma ResumedRunSeesOutputs(vars: Fields, history: seq<Result>, stepID: string, key: string)
    requires SafeHistory(history) && stepID != "" && key in LastOut(history, stepID)
    ensures AlwaysRestored(vars, ResultsAfter(history), Name(Name("steps", stepID), key), LastOut(history, stepID)[key])
  {
    var results, value := ResultsAfter(history), LastOut(history, stepID)[key];
    OutputsAreRecorded(history, stepID);
    SafeNamesAreSole(results, stepID, key, value);
    RestoredExactlyWhenSole(vars, results, stepID, key, value);
  }

  /** What a step publishes as it ends, without a pause in between. */
  function LiveVars(vars: Fields, history: seq<Result>): Fields
  {
    if history == [] then vars
    else
      var before := LiveVars(vars, history[..|history| - 1]);
      match history[|history| - 1]
      case Ran(stepID, resultKey, out) =>
        var named := Published(before, Group(resultKey, out));
        if stepID == "" then named else Published(named, Group(Name("steps", stepID), out))
      case Answered(_, _) => before
  }

  ghost predicate Keeps(vars: Fields, before: Fields, name: string)
  {
    name in before ==> name in vars && vars[name] == before[name]
  }

  /** Publishing another safe group leaves a step's variable as it is. */
  lemma OthersKeep(vars: Fields, g: Group, stepID: string, key: string)
    requires DotFree(stepID)
    requires SafeKey(g.prefix) || exists id :: DotFree(id) && id != stepID && g.prefix == Name("steps", id)
    ensures Keeps(Published(vars, g), vars, Name(Name("steps", stepID), key))
  {
    PublishedAt(vars, g, Name(Name("steps", stepID), key));
    if SafeKey(g.prefix) {
      SafeKeyDoesNotClash(g, stepID, key);
    } else if Names(g, Name(Name("steps", stepID), key)) {
      var id :| DotFree(id) && id != stepID && g.prefix == Name("steps", id);
      OtherStepDoesNotClash(g, id, stepID, key);
    }
  }

  /** The run that went on without a pause reads the same value. */
  lemma {:induction false} RunningReadsTheSame(vars: Fields, history: seq<Result>, stepID: string, key: string)
    requires SafeHistory(history) && stepID != "" && key in LastOut(history, stepID)
    ensures var name := Name(Name("steps", stepID), key);
      name in LiveVars(vars, history) && LiveVars(vars, history)[name] == LastOut(history, stepID)[key]
  {
    var before, last := history[..|history| - 1], history[|history| - 1];
    var name := Name(Name("steps", stepID), key);
    SafeBefore(history);
    if last.Ran? {
      var live := LiveVars(vars, before);
      var named := Published(live, Group(last.resultKey, last.out));
      var own := Group(Name("steps", last.stepID), last.out);
      NameGivesKey(Name("steps", stepID), key);
      PublishedAt(named, own, name);
      if last.stepID != stepID {
        RunningReadsTheSame(vars, before, stepID, key);
        assert DotFree(stepID) by { OutIsOfAStep(history, stepID); }
        OthersKeep(live, Group(last.resultKey, last.out), stepID, key);
        OthersKeep(named, own, stepID, key);
      }
    } else {
      RunningReadsTheSame(vars, before, stepID, key);
    }
  }

  lemma {:induction false} OutIsOfAStep(history: seq<Result>, stepID: string)
    requires SafeHistory(history) && LastOut(history, stepID) != map[]
    ensures DotFree(stepID)
  {
    var last := history[|history| - 1];
    SafeBefore(history);
    if !(last.Ran? && last.stepID == stepID) {
      OutIsOfAStep(history[..|history| - 1], stepID);
    }
  }

  /** Ids with dots can clash: what a resumed execution reads then depends on the iteration order. */
  lemma DottedIdsClash(vars: Fields)
    ensures var history := [Ran("a", "t", map["b.c" := Number(1)]), Ran("a.b", "u", map["c" := Number(2)])];
      && LastOut(history, "a") == map["b.c" := Number(1)]
      && !AlwaysRestored(vars, ResultsAfter(history), Name(Name("steps", "a"), "b.c"), Number(1))
  {
    var r1, r2 := Ran("a", "t", map["b.c" := Number(1)]), Ran("a.b", "u", map["c" := Number(2)]);
    var history := [r1, r2];
    assert history[..1] == [r1] && [r1][..0] == [];
    assert ResultsAfter([r1]) == Recorded(map["t" := Object(r1.out)], "a", r1.out);
    assert LastOut([r1], "a") == r1.out;
    var results := ResultsAfter(history);
    assert ByStep(results) == map["a" := Object(r1.out), "a.b" := Object(r2.out)];
    var name := Name(Name("steps", "a"), "b.c");
    var other := Group(Name("steps", "a.b"), r2.out);
    assert name == Name(other.prefix, "c") == "steps.a.b.c";
    NameGivesKey(other.prefix, "c");
    assert OfStep(ByStep(results), "a.b", other) && Names(other, name) && ValueOf(other, name) == Number(2);
    RestoredExactlyWhenSole(vars, results, "a", "b.c", Number(1));
  }

  /** So can a tool, an agent or an awaited step that is named like a step's variables. */
  lemma ToolNamedLikeStepsClashes(vars: Fields)
    ensures var history := [Ran("a", "t", map["c" := Number(1)]), Ran("b", "steps.a", map["c" := Number(2)])];
      && LastOut(history, "a") == map["c" := Number(1)]
      && !AlwaysRestored(vars, ResultsAfter(history), Name(Name("steps", "a"), "c"), Number(1))
  {
    var r1, r2 := Ran("a", "t", map["c" := Number(1)]), Ran("b", "steps.a", map["c" := Number(2)]);
    var history := [r1, r2];
    assert history[..1] == [r1] && [r1][..0] == [];
    assert ResultsAfter([r1]) == Recorded(map["t" := Object(r1.out)], "a", r1.out);
    assert LastOut([r1], "a") == r1.out;
    var results := ResultsAfter(history);
    assert ByStep(results) == map["a" := Object(r1.out), "b" := Object(r2.out)];
    var name := Name(Name("steps", "a"), "c");
    var other := Group("steps.a", r2.out);
    assert name == Name(other.prefix, "c") == "steps.a.c";
    NameGivesKey(other.prefix, "c");
    assert OfResult(results, "steps.a", other) && Names(other, name) && ValueOf(other, name) == Number(2);
    RestoredExactlyWhenSole(vars, results, "a", "c", Number(1));
  }

  // ---------- the maps as the verifier works on them ----------

  lemma OneMoreName(prefix: string, fields: Fields, key: string, value: Json, name: string)
    ensures var more := Group(prefix, fields[key := value]);
      && (Names(more, name) <==> Names(Group(prefix, fields), name) || name == Name(prefix, key))
      && (Names(more, name) ==>
            ValueOf(more, name) == if name == Name(prefix, key) then value else ValueOf(Group(prefix, fields), name))
  {
    NameGivesKey(prefix, key);
  }

  lemma OneMoreEntry(prefix: string, fields: Fields, key: string, value: Json)
    ensures Entries(Group(prefix, fields[key := value])) == Entries(Group(prefix, fields))[Name(prefix, key) := value]
  {
    var few, more := Entries(Group(prefix, fields)), Entries(Group(prefix, fields[key := value]));
    forall name
      ensures name in more <==> name in few[Name(prefix, key) := value]
      ensures name in more ==> more[name] == few[Name(prefix, key) := value][name]
    {
      OneMoreName(prefix, fields, key, value, name);
    }
  }

  /** Publishing one more entry of a group. */
  lemma PublishNext(vars: Fields, prefix: string, fields: Fields, rest: set<string>, key: string)
    requires key in rest && rest <= fields.Keys
    ensures Published(vars, Group(prefix, fields - rest))[Name(prefix, key) := fields[key]]
         == Published(vars, Group(prefix, fields - (rest - {key})))
  {
    assert (fields - rest)[key := fields[key]] == fields - (rest - {key});
    OneMoreEntry(prefix, fields - rest, key, fields[key]);
  }

  lemma PublishLast(vars: Fields, groups: seq<Group>, g: Group)
    ensures PublishAll(vars, groups + [g]) == Published(PublishAll(vars, groups), g)
  {
    assert (groups + [g])[..|groups|] == groups;
  }

  lemma {:induction false} PublishInTwo(vars: Fields, a: seq<Group>, b: seq<Group>)
    ensures PublishAll(vars, a + b) == PublishAll(PublishAll(vars, a), b)
  {
    if b == [] {
      assert a + b == a;
    } else {
      var before, last := b[..|b| - 1], b[|b| - 1];
      PublishInTwo(vars, a, before);
      PublishLast(vars, a + before, last);
      assert a + before + [last] == a + b;
    }
  }

  lemma {:induction false} IdsMatterAtSteps(results: Fields, keys: seq<string>, ids: seq<string>)
    requires (forall k <- keys :: k in results) && STEPS_KEY !in keys && forall id <- ids :: id in ByStep(results)
    ensures Groups(results, keys, []) == Groups(results, keys, ids)
  {
    if keys != [] {
      IdsMatterAtSteps(results, keys[..|keys| - 1], ids);
    }
  }

  lemma EnumerateNext(m: Fields, rest: set<string>, keys: seq<string>, k: string)
    requires k in rest && rest <= m.Keys && Enumerates(keys, m - rest)
    ensures Enumerates(keys + [k], m - (rest - {k}))
  {
    forall i | 0 <= i < |keys|
      ensures keys[i] != k
    {
      assert keys[i] in keys;
    }
  }

  /** Restoring one more step's output. */
  lemma MeetNext(vars: Fields, byStep: Fields, rest: set<string>, ids: seq<string>, id: string)
    requires id in rest && rest <= byStep.Keys && Enumerates(ids, byStep - rest)
    ensures Enumerates(ids + [id], byStep - (rest - {id}))
    ensures PublishAll(vars, StepGroups(byStep, ids + [id]))
         == PublishAll(PublishAll(vars, StepGroups(byStep, ids)), GroupOf(Name("steps", id), byStep[id]))
  {
    EnumerateNext(byStep, rest, ids, id);
    assert (ids + [id])[..|ids|] == ids;
    PublishInTwo(vars, StepGroups(byStep, ids), GroupOf(Name("steps", id), byStep[id]));
  }

  /** Restoring has met the given keys, and has the given ones to go. */
  ghost predicate Visited(results: Fields, rest: set<string>, keys: seq<string>, ids: seq<string>)
  {
    && Enumerates(keys, results - rest)
    && (forall k <- keys :: k in results)
    && (if STEPS_KEY in rest then ids == [] else Enumerates(ids, ByStep(results)))
  }

  /** Restoring one more result: the groups that it adds. */
  lemma VisitNext(vars: Fields, results: Fields, rest: set<string>, keys: seq<string>, ids: seq<string>, k: string,
      met: seq<string>)
    requires k in rest && rest <= results.Keys && Visited(results, rest, keys, ids)
    requires if k == STEPS_KEY then Enumerates(met, ByStep(results)) else met == ids
    ensures Visited(results, rest - {k}, keys + [k], met)
    ensures Restored(vars, results, keys + [k], met)
         == PublishAll(Restored(vars, results, keys, ids), if k == STEPS_KEY then StepGroups(ByStep(results), met)
             else GroupOf(k, results[k]))
  {
    EnumerateNext(results, rest, keys, k);
    assert forall x <- keys + [k] :: x in keys || x == k;
    assert k == STEPS_KEY ==> STEPS_KEY !in keys;
    assert (keys + [k])[..|keys|] == keys;
    if k == STEPS_KEY {
      IdsMatterAtSteps(results, keys, met);
    }
    PublishInTwo(vars, Groups(results, keys, met), if k == STEPS_KEY then StepGroups(ByStep(results), met)
        else GroupOf(k, results[k]));
  }

  class TaskResults {
    var stepResults: Fields
    var vars: Fields

    constructor (stepResults: Fields, vars: Fields)
      ensures this.stepResults == stepResults && this.vars == vars
    {
      this.stepResults, this.vars := stepResults, vars;
    }

    method Publish(prefix: string, fields: Fields)
      modifies this`vars
      ensures vars == Published(old(vars), Group(prefix, fields))
    {
      var rest := fields.Keys;
      assert Entries(Group(prefix, fields - rest)) == map[];
      while rest != {}
        invariant rest <= fields.Keys
        invariant vars == Published(old(vars), Group(prefix, fields - rest))
        decreases |rest|
      {
        var k :| k in rest;
        PublishNext(old(vars), prefix, fields, rest, k);
        vars := vars[Name(prefix, k) := fields[k]];
        rest := rest - {k};
      }
      assert fields - rest == fields;
    }

    method RecordStepOutput(stepID: string, out: Fields)
      modifies this
      ensures stepResults == Recorded(old(stepResults), stepID, out)
      ensures vars == if stepID == "" then old(vars) else Published(old(vars), Group(Name("steps", stepID), out))
    {
      if stepID == "" {
        return;
      }
      var byStep := map[];
      if STEPS_KEY in stepResults && stepResults[STEPS_KEY].Object? {
        byStep := stepResults[STEPS_KEY].fields;
      }
      stepResults := stepResults[STEPS_KEY := Object(byStep[stepID := Object(out)])];
      Publish(Name("steps", stepID), out);
    }

    /** The loop over the per-step outputs, met in some order. */
    method RestoreSteps(byStep: Fields) returns (ghost ids: seq<string>)
      modifies this`vars
      ensures Enumerates(ids, byStep) && vars == PublishAll(old(vars), StepGroups(byStep, ids))
    {
      ids := [];
      var rest := byStep.Keys;
      while rest != {}
        invariant rest <= byStep.Keys
        invariant Enumerates(ids, byStep - rest)
        invariant vars == PublishAll(old(vars), StepGroups(byStep, ids))
        decreases |rest|
      {
        var id :| id in rest;
        if byStep[id].Object? {
          Publish(Name("steps", id), byStep[id].fields);
        }
        MeetNext(old(vars), byStep, rest, ids, id);
        ids := ids + [id];
        rest := rest - {id};
      }
      assert byStep - rest == byStep;
    }

    /** Rebuilds the variables of the steps already run, the results met in some order. */
    method RestoreResultVars() returns (ghost keys: seq<string>, ghost ids: seq<string>)
      modifies this`vars
      ensures Orders(stepResults, keys, ids) && vars == Restored(old(vars), stepResults, keys, ids)
    {
      keys, ids := [], [];
      var rest := stepResults.Keys;
      while rest != {}
        invariant rest <= stepResults.Keys
        invariant Visited(stepResults, rest, keys, ids)
        invariant vars == Restored(old(vars), stepResults, keys, ids)
        decreases |rest|
      {
        var k :| k in rest;
        ghost var met := if k == STEPS_KEY then [] else ids;
        if k == STEPS_KEY {
          if stepResults[k].Object? {
            met := RestoreSteps(stepResults[k].fields);
          }
        } else if stepResults[k].Object? {
          Publish(k, stepResults[k].fields);
        }
        VisitNext(old(vars), stepResults, rest, keys, ids, k, met);
        keys, ids := keys + [k], met;
        rest := rest - {k};
      }
      assert stepResults - rest == stepResults;
    }

    /** What the analyst and the caller get: all but the per-step copies. */
    method PublicResults() returns (out: Fields)
      ensures out.Keys == stepResults.Keys - {STEPS_KEY}
      ensures forall k <- out :: out[k] == stepResults[k]
    {
      out := stepResults - {STEPS_KEY};
    }
  }
}
