/** What the journal keeps of inputs and definitions: evidence without secrets, and a version that
    identifies the definitions a pipeline can invoke. */
module Reproducibility {
  import opened Pipelines
  import opened JsonValues

  /** How characters are lowered, and how the credentials in a URL are removed. */
  datatype Rules = Rules(lower: char -> char, cleanURL: string -> string)

  const REDACTED := Text("[REDACTED]")

  /** A key in lower case, with underscores for dashes and spaces. */
  function Normalized(rules: Rules, key: string): string
  {
    seq(|key|, i requires 0 <= i < |key| => rules.lower(if key[i] == '-' || key[i] == ' ' then '_' else key[i]))
  }

  predicate SecretKey(rules: Rules, key: string)
  {
    var lower := Normalized(rules, key);
    || Contains(lower, "password") || Contains(lower, "secret") || Contains(lower, "token")
    || Contains(lower, "api_key") || Contains(lower, "apikey") || Contains(lower, "authorization")
    || lower == "private_key"
  }

  predicate LinkKey(rules: Rules, key: string)
  {
    Normalized(rules, key) in {"url", "base_url", "target"}
  }

  /** What becomes of the value under a key. */
  function SanitizeEntry(rules: Rules, key: string, value: Json): Json
    decreases value, 1
  {
    if SecretKey(rules, key) then REDACTED
    else if LinkKey(rules, key) && value.Text? then Text(rules.cleanURL(value.s))
    else Sanitize(rules, value)
  }

  /** sanitizeJSON. */
  function Sanitize(rules: Rules, value: Json): Json
    decreases value, 0
  {
    match value
    case Object(fields) => Object(map k | k in fields :: SanitizeEntry(rules, k, fields[k]))
    case Array(items) => Array(seq(|items|, i requires 0 <= i < |items| => Sanitize(rules, items[i])))
    case _ => value
  }

  // ---------- which values are kept ----------

  /** The word stands at place i of the key, in any case, with dashes or spaces for underscores. */
  ghost predicate SpelledAt(rules: Rules, key: string, i: nat, word: string)
  {
    && i + |word| <= |key|
    && forall j | 0 <= j < |word| ::
         word[j] == rules.lower(if key[i + j] in {'-', ' '} then '_' else key[i + j])
  }

  const SECRET_WORDS := {"password", "secret", "token", "api_key", "apikey", "authorization"}

  lemma ContainsSpelled(rules: Rules, key: string, word: string)
    ensures Contains(Normalized(rules, key), word) <==> exists i: nat :: SpelledAt(rules, key, i, word)
  {
    var lower := Normalized(rules, key);
    if i: nat :| i <= |lower| && word <= lower[i..] {
      assert forall j | 0 <= j < |word| :: word[j] == lower[i..][j] == lower[i + j];
      assert SpelledAt(rules, key, i, word);
    }
    if i: nat :| SpelledAt(rules, key, i, word) {
      assert lower[i..][..|word|] == word;
    }
  }

  /** A key is secret when it contains one of six words, or is itself private_key. */
  lemma SecretKeyExactly(rules: Rules, key: string)
    ensures SecretKey(rules, key)
       <==> || (exists word, i: nat :: word in SECRET_WORDS && SpelledAt(rules, key, i, word))
            || (|key| == |"private_key"| && SpelledAt(rules, key, 0, "private_key"))
  {
    forall word | word in SECRET_WORDS
      ensures Contains(Normalized(rules, key), word) <==> exists i: nat :: SpelledAt(rules, key, i, word)
    {
      ContainsSpelled(rules, key, word);
    }
  }

  lemma LinkKeyExactly(rules: Rules, key: string)
    ensures LinkKey(rules, key)
       <==> exists word :: word in {"url", "base_url", "target"} && |key| == |word| && SpelledAt(rules, key, 0, word)
  {
    var lower := Normalized(rules, key);
    if LinkKey(rules, key) {
      assert SpelledAt(rules, key, 0, lower);
    }
    if word :| word in {"url", "base_url", "target"} && |key| == |word| && SpelledAt(rules, key, 0, word) {
      assert lower == word;
    }
  }

  datatype Hop = Key(key: string) | Index(i: nat)

  /** What stands in a value at the end of a path. */
  function At(value: Json, path: seq<Hop>): Option<Json>
  {
    if path == [] then Some(value)
    else match path[0]
      case Key(k) => if value.Object? && k in value.fields then At(value.fields[k], path[1..]) else None
      case Index(i) => if value.Array? && i < |value.items| then At(value.items[i], path[1..]) else None
  }

  ghost predicate SecretHop(rules: Rules, hop: Hop)
  {
    hop.Key? && SecretKey(rules, hop.key)
  }

  /** A value and what is kept of it, the hop that leads to it being the last one. */
  ghost predicate KeptAs(rules: Rules, last: Option<Hop>, value: Json, kept: Json)
  {
    if value.Text? && last.Some? && last.value.Key? && LinkKey(rules, last.value.key) then
      kept == Text(rules.cleanURL(value.s))
    else if value.Object? then kept.Object? && kept.fields.Keys == value.fields.Keys
    else if value.Array? then kept.Array? && |kept.items| == |value.items|
    else kept == value
  }

  function LastHop(path: seq<Hop>): Option<Hop>
  {
    if path == [] then None else Some(path[|path| - 1])
  }

  /** At any depth: what is not under a secret key is kept where it was, only URLs being cleaned. */
  lemma {:induction false} KeptAtEveryPath(rules: Rules, value: Json, path: seq<Hop>)
    requires At(value, path).Some? && forall hop <- path :: !SecretHop(rules, hop)
    ensures At(Sanitize(rules, value), path).Some?
    ensures KeptAs(rules, LastHop(path), At(value, path).value, At(Sanitize(rules, value), path).value)
    decreases |path|
  {
    if path != [] {
      var hop, rest := path[0], path[1..];
      assert hop in path && forall h <- rest :: h in path;
      match hop
      case Key(k) =>
        var inner := value.fields[k];
        if LinkKey(rules, k) && inner.Text? {
          assert rest == [];
        } else {
          KeptAtEveryPath(rules, inner, rest);
        }
      case Index(i) => KeptAtEveryPath(rules, value.items[i], rest);
      assert rest != [] ==> LastHop(rest) == LastHop(path);
    }
  }

  /** At any depth: the first secret key on a path has its whole value replaced. */
  lemma {:induction false} RedactedAtEveryPath(rules: Rules, value: Json, path: seq<Hop>)
    requires path != [] && At(value, path).Some?
    requires SecretHop(rules, path[|path| - 1]) && forall i | 0 <= i < |path| - 1 :: !SecretHop(rules, path[i])
    ensures At(Sanitize(rules, value), path) == Some(Text("[REDACTED]"))
    decreases |path|
  {
    if |path| > 1 {
      var rest := path[1..];
      assert !SecretHop(rules, path[0]) && rest[|rest| - 1] == path[|path| - 1];
      match path[0]
      case Key(k) =>
        assert value.fields[k].Object? || value.fields[k].Array?;
        RedactedAtEveryPath(rules, value.fields[k], rest);
      case Index(i) => RedactedAtEveryPath(rules, value.items[i], rest);
    }
  }

  // ---------- what sanitizing forgets, exactly ----------

  /** The values differ at most in what stands under secret keys and in the credentials of URLs. */
  ghost predicate SameEvidence(rules: Rules, a: Json, b: Json)
    decreases a, 0
  {
    match a
    case Object(fields) => b.Object? && fields.Keys == b.fields.Keys && forall k <- fields ::
        SameEntry(rules, k, fields[k], b.fields[k])
    case Array(items) => b.Array? && |items| == |b.items| && forall i | 0 <= i < |items| ::
        SameEvidence(rules, items[i], b.items[i])
    case _ => a == b
  }

  ghost predicate SameEntry(rules: Rules, key: string, a: Json, b: Json)
    decreases a, 1
  {
    || SecretKey(rules, key)
    || (if LinkKey(rules, key) && a.Text? then b.Text? && rules.cleanURL(a.s) == rules.cleanURL(b.s)
        else SameEvidence(rules, a, b))
  }

  lemma {:induction false} EntriesAlikeExactly(rules: Rules, key: string, a: Json, b: Json)
    ensures SanitizeEntry(rules, key, a) == SanitizeEntry(rules, key, b) <==> SameEntry(rules, key, a, b)
    decreases a, 1
  {
    SanitizedAlikeExactly(rules, a, b);
  }

  /** Two values leave the same evidence if and only if they differ in nothing but secrets. */
  lemma {:induction false} SanitizedAlikeExactly(rules: Rules, a: Json, b: Json)
    ensures Sanitize(rules, a) == Sanitize(rules, b) <==> SameEvidence(rules, a, b)
    decreases a, 0
  {
    match a
    case Object(fields) =>
      if b.Object? {
        var x, y := Sanitize(rules, a).fields, Sanitize(rules, b).fields;
        assert x.Keys == fields.Keys && y.Keys == b.fields.Keys;
        if fields.Keys == b.fields.Keys {
          forall k | k in fields
            ensures x[k] == y[k] <==> SameEntry(rules, k, fields[k], b.fields[k])
          {
            EntriesAlikeExactly(rules, k, fields[k], b.fields[k]);
          }
        }
      }
    case Array(items) =>
      if b.Array? {
        var x, y := Sanitize(rules, a).items, Sanitize(rules, b).items;
        assert |x| == |items| && |y| == |b.items|;
        if |items| == |b.items| {
          forall i | 0 <= i < |items|
            ensures x[i] == y[i] <==> SameEvidence(rules, items[i], b.items[i])
          {
            SanitizedAlikeExactly(rules, items[i], b.items[i]);
          }
          assert x == y <==> forall i | 0 <= i < |items| :: x[i] == y[i];
        }
      }
    case _ =>
  }

  /** Evidence is not changed by sanitizing it again. */
  lemma {:induction false} SanitizedStays(rules: Rules, value: Json)
    requires forall s :: rules.cleanURL(rules.cleanURL(s)) == rules.cleanURL(s)
    ensures Sanitize(rules, Sanitize(rules, value)) == Sanitize(rules, value)
  {
    match value
    case Object(fields) =>
      forall k | k in fields
        ensures SanitizeEntry(rules, k, SanitizeEntry(rules, k, fields[k])) == SanitizeEntry(rules, k, fields[k])
      {
        SanitizedStays(rules, fields[k]);
      }
    case Array(items) =>
      forall i | 0 <= i < |items|
        ensures Sanitize(rules, Sanitize(rules, items[i])) == Sanitize(rules, items[i])
      {
        SanitizedStays(rules, items[i]);
      }
    case _ =>
  }

  // ---------- the version of a definition ----------

  function Tools(steps: seq<Step>): seq<string>
  {
    seq(|steps|, i requires 0 <= i < |steps| => steps[i].tool)
  }

  function Agents(steps: seq<Step>): seq<string>
  {
    seq(|steps|, i requires 0 <= i < |steps| => steps[i].agent)
  }

  /** The definitions that the steps name and the configuration has. */
  function Referenced(names: seq<string>, definitions: Fields): Fields
  {
    map k | k in definitions && k in names && k != "" :: definitions[k]
  }

  function Section(rules: Rules, name: string, definitions: Fields): Fields
  {
    if definitions == map[] then map[] else map[name := Sanitize(rules, Object(definitions))]
  }

  /** The canonical form of a pipeline with the tools and agents that it can invoke. */
  function Snapshot(rules: Rules, pipeline: Json, tools: Fields, agents: Fields): Json
  {
    Object(map["schema_version" := Number(1), "pipeline" := Sanitize(rules, pipeline)]
           + Section(rules, "tools", tools) + Section(rules, "agents", agents))
  }

  function SnapshotOf(rules: Rules, pipeline: Json, steps: seq<Step>, tools: Fields, agents: Fields): Json
  {
    Snapshot(rules, pipeline, Referenced(Tools(steps), tools), Referenced(Agents(steps), agents))
  }

  lemma ReferencedNext(names: seq<string>, i: nat, definitions: Fields)
    requires i < |names|
    ensures Referenced(names[..i + 1], definitions)
         == if names[i] != "" && names[i] in definitions
             then Referenced(names[..i], definitions)[names[i] := definitions[names[i]]]
            else Referenced(names[..i], definitions)
  {
    assert names[..i + 1] == names[..i] + [names[i]];
  }

  method BuildPipelineSnapshot(rules: Rules, pipeline: Json, steps: seq<Step>, tools: Fields, agents: Fields)
      returns (snapshot: Json)
    ensures snapshot == SnapshotOf(rules, pipeline, steps, tools, agents)
  {
    var usedTools, usedAgents := map[], map[];
    for i := 0 to |steps|
      invariant usedTools == Referenced(Tools(steps)[..i], tools)
      invariant usedAgents == Referenced(Agents(steps)[..i], agents)
    {
      ReferencedNext(Tools(steps), i, tools);
      ReferencedNext(Agents(steps), i, agents);
      if steps[i].tool != "" && steps[i].tool in tools {
        usedTools := usedTools[steps[i].tool := tools[steps[i].tool]];
      }
      if steps[i].agent != "" && steps[i].agent in agents {
        usedAgents := usedAgents[steps[i].agent := agents[steps[i].agent]];
      }
    }
    assert Tools(steps)[..|steps|] == Tools(steps) && Agents(steps)[..|steps|] == Agents(steps);
    snapshot := Snapshot(rules, pipeline, usedTools, usedAgents);
  }

  /** A configuration: the tools and agents that pipelines can name. */
  datatype Config = Config(tools: Fields, agents: Fields)

  /** A version stands for a pipeline and the definitions its steps name, up to secrets: under two
      configurations two pipelines have one version if and only if they differ in nothing else. */
  lemma SameVersionExactly(rules: Rules, digest: Json -> string, p1: Json, steps1: seq<Step>, c1: Config, p2: Json,
      steps2: seq<Step>, c2: Config)
    requires forall x, y :: digest(x) == digest(y) ==> x == y
    ensures digest(SnapshotOf(rules, p1, steps1, c1.tools, c1.agents))
        == digest(SnapshotOf(rules, p2, steps2, c2.tools, c2.agents))
       <==> && SameEvidence(rules, p1, p2)
            && SameEvidence(rules, Object(Referenced(Tools(steps1), c1.tools)),
                Object(Referenced(Tools(steps2), c2.tools)))
            && SameEvidence(rules, Object(Referenced(Agents(steps1), c1.agents)),
                Object(Referenced(Agents(steps2), c2.agents)))
  {
    SameSnapshotExactly(rules, p1, Referenced(Tools(steps1), c1.tools), Referenced(Agents(steps1), c1.agents),
                        p2, Referenced(Tools(steps2), c2.tools), Referenced(Agents(steps2), c2.agents));
  }

  lemma SameSnapshotExactly(rules: Rules, p1: Json, t1: Fields, a1: Fields, p2: Json, t2: Fields, a2: Fields)
    ensures Snapshot(rules, p1, t1, a1) == Snapshot(rules, p2, t2, a2)
       <==> && SameEvidence(rules, p1, p2)
            && SameEvidence(rules, Object(t1), Object(t2))
            && SameEvidence(rules, Object(a1), Object(a2))
  {
    SanitizedAlikeExactly(rules, p1, p2);
    SectionsAlikeExactly(rules, "tools", t1, t2);
    SectionsAlikeExactly(rules, "agents", a1, a2);
    PartsOfSnapshot(rules, p1, t1, a1);
    PartsOfSnapshot(rules, p2, t2, a2);
  }

  lemma SectionsAlikeExactly(rules: Rules, name: string, d1: Fields, d2: Fields)
    ensures Section(rules, name, d1) == Section(rules, name, d2) <==> SameEvidence(rules, Object(d1), Object(d2))
  {
    SanitizedAlikeExactly(rules, Object(d1), Object(d2));
    var s1, s2 := Section(rules, name, d1), Section(rules, name, d2);
    assert (name in s1 <==> d1 != map[]) && (name in s2 <==> d2 != map[]);
    assert d1 == map[] <==> d1.Keys == {};
    assert d2 == map[] <==> d2.Keys == {};
    if d1 != map[] && d2 != map[] {
      assert s1 == s2 <==> s1[name] == s2[name];
    }
  }

  /** The entry of that name, and no other. */
  function Only(name: string, fields: Fields): Fields
  {
    map k | k in fields && k == name :: fields[k]
  }

  lemma PartsOfJoin(base: Fields, x: string, a: Fields, y: string, b: Fields)
    requires a.Keys <= {x} && b.Keys <= {y} && x != y && x !in base && y !in base
    ensures var all := base + a + b;
      && Only(x, all) == a && Only(y, all) == b
      && (forall k <- base :: all[k] == base[k]) && base.Keys <= all.Keys <= base.Keys + {x, y}
  {
  }

  /** A section is found again in the snapshot. */
  lemma PartsOfSnapshot(rules: Rules, p: Json, t: Fields, a: Fields)
    ensures var s := Snapshot(rules, p, t, a).fields;
      && s.Keys <= {"schema_version", "pipeline", "tools", "agents"}
      && s["schema_version"] == Number(1) && s["pipeline"] == Sanitize(rules, p)
      && Section(rules, "tools", t) == Only("tools", s)
      && Section(rules, "agents", a) == Only("agents", s)
  {
    var base := map["schema_version" := Number(1), "pipeline" := Sanitize(rules, p)];
    PartsOfJoin(base, "tools", Section(rules, "tools", t), "agents", Section(rules, "agents", a));
  }

  /** The section holds, sanitized, exactly the configured definitions of these names, and is left out
      when there are none. */
  ghost predicate SectionOf(rules: Rules, snapshot: Fields, section: string, names: set<string>, definitions: Fields)
  {
    && (section in snapshot <==> exists k <- names :: k != "" && k in definitions)
    && (section in snapshot ==>
          && snapshot[section].Object?
          && (forall k :: k in snapshot[section].fields <==> k in names && k != "" && k in definitions)
          && (forall k <- snapshot[section].fields ::
                snapshot[section].fields[k] == SanitizeEntry(rules, k, definitions[k])))
  }

  lemma SectionExactly(rules: Rules, section: string, names: seq<string>, definitions: Fields)
    ensures SectionOf(rules, Section(rules, section, Referenced(names, definitions)), section,
                      (set k | k in names), definitions)
  {
    var used := Referenced(names, definitions);
    if k :| k in names && k != "" && k in definitions {
      assert k in used;
    }
    if used != map[] {
      assert used.Keys != {};
      var k :| k in used;
      assert k in names && k != "" && k in definitions;
    }
  }

  lemma SectionFound(rules: Rules, s: Fields, section: string, used: seq<string>, names: set<string>,
      definitions: Fields)
    requires Only(section, s) == Section(rules, section, Referenced(used, definitions))
    requires names == set k | k in used
    ensures SectionOf(rules, s, section, names, definitions)
  {
    SectionExactly(rules, section, used, definitions);
    assert SectionOf(rules, Only(section, s), section, names, definitions);
  }

  ghost predicate IsSnapshot(rules: Rules, pipeline: Json, steps: seq<Step>, tools: Fields, agents: Fields, s: Fields)
  {
    && s.Keys <= {"schema_version", "pipeline", "tools", "agents"}
    && "schema_version" in s && s["schema_version"] == Number(1)
    && "pipeline" in s && s["pipeline"] == Sanitize(rules, pipeline)
    && SectionOf(rules, s, "tools", (set step | step in steps :: step.tool), tools)
    && SectionOf(rules, s, "agents", (set step | step in steps :: step.agent), agents)
  }

  lemma SectionsOfSnapshot(rules: Rules, pipeline: Json, steps: seq<Step>, tools: Fields, agents: Fields)
    ensures var s := SnapshotOf(rules, pipeline, steps, tools, agents).fields;
      && SectionOf(rules, s, "tools", (set step | step in steps :: step.tool), tools)
      && SectionOf(rules, s, "agents", (set step | step in steps :: step.agent), agents)
  {
    var s := SnapshotOf(rules, pipeline, steps, tools, agents).fields;
    PartsOfSnapshot(rules, pipeline, Referenced(Tools(steps), tools), Referenced(Agents(steps), agents));
    NamesOfSteps(steps);
    SectionFound(rules, s, "tools", Tools(steps), set step | step in steps :: step.tool, tools);
    SectionFound(rules, s, "agents", Agents(steps), set step | step in steps :: step.agent, agents);
  }

  /** A snapshot is the pipeline, the tools and the agents that its steps name, and nothing else. */
  lemma SnapshotExactly(rules: Rules, pipeline: Json, steps: seq<Step>, tools: Fields, agents: Fields)
    ensures var s := SnapshotOf(rules, pipeline, steps, tools, agents);
      s.Object? && IsSnapshot(rules, pipeline, steps, tools, agents, s.fields)
  {
    SectionsOfSnapshot(rules, pipeline, steps, tools, agents);
    PartsOfSnapshot(rules, pipeline, Referenced(Tools(steps), tools), Referenced(Agents(steps), agents));
  }

  lemma NamesOfSteps(steps: seq<Step>)
    ensures (set k | k in Tools(steps)) == set step | step in steps :: step.tool
    ensures (set k | k in Agents(steps)) == set step | step in steps :: step.agent
  {
    forall i | 0 <= i < |steps|
      ensures Tools(steps)[i] in Tools(steps) && Agents(steps)[i] in Agents(steps)
      ensures steps[i] in steps
    {
    }
  }

  /** Definitions that no step names do not matter. */
  lemma OtherDefinitionsDoNotMatter(rules: Rules, pipeline: Json, steps: seq<Step>, t1: Fields, t2: Fields,
      a1: Fields, a2: Fields)
    requires forall name | name in Tools(steps) && name != "" ::
      (name in t1 <==> name in t2) && (name in t1 ==> t1[name] == t2[name])
    requires forall name | name in Agents(steps) && name != "" ::
      (name in a1 <==> name in a2) && (name in a1 ==> a1[name] == a2[name])
    ensures SnapshotOf(rules, pipeline, steps, t1, a1) == SnapshotOf(rules, pipeline, steps, t2, a2)
  {
    assert Referenced(Tools(steps), t1) == Referenced(Tools(steps), t2);
    assert Referenced(Agents(steps), a1) == Referenced(Agents(steps), a2);
  }

  /** Sanitizing goes by the key, and a definition's key is its name: how a tool with a secret-like
      name is defined leaves no trace in the version. */
  lemma SecretNamedToolIsUnseen(rules: Rules, pipeline: Json, tools: Fields, agents: Fields, name: string, other: Json)
    requires name in tools && SecretKey(rules, name)
    ensures Snapshot(rules, pipeline, tools[name := other], agents) == Snapshot(rules, pipeline, tools, agents)
  {
    SecretEntryIsUnseen(rules, tools, name, other);
    SanitizedAlikeExactly(rules, Object(tools[name := other]), Object(tools));
  }

  lemma SecretEntryIsUnseen(rules: Rules, tools: Fields, name: string, other: Json)
    requires name in tools && SecretKey(rules, name)
    ensures forall k | k in tools :: SameEntry(rules, k, tools[name := other][k], tools[k])
  {
    forall k | k in tools
      ensures SameEntry(rules, k, tools[name := other][k], tools[k])
    {
      if k != name {
        EntriesAlikeExactly(rules, k, tools[k], tools[k]);
      }
    }
  }
}
