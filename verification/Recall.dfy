/** Listing the stored executions newest first, and recalling the most recent of a user's. */
module Recall {
  import opened Pipelines

  datatype Execution = Execution(id: string, sessionID: string, userID: string, intent: string, createdAt: int)

  const MAX_RECALL := 10

  ghost predicate NewestFirst(states: seq<Execution>)
  {
    forall i, j | 0 <= i < j < |states| :: states[i].createdAt >= states[j].createdAt
  }

  /** Everything up to a is at least as new as everything after it. */
  ghost predicate PrefixNewest(states: seq<Execution>, a: nat)
  {
    forall i, j | 0 <= i < a <= j < |states| :: states[i].createdAt >= states[j].createdAt
  }

  /** The first i are settled: newest first, and at least as new as all that follow. */
  ghost predicate Settled(states: seq<Execution>, i: nat)
    requires i <= |states|
  {
    NewestFirst(states[..i]) && PrefixNewest(states, i)
  }

  /** Entry i is at least as new as the entries from i to before j. */
  ghost predicate NewestOf(states: seq<Execution>, i: nat, j: nat)
    requires i <= j <= |states| && i < |states|
  {
    forall k | i <= k < j :: states[i].createdAt >= states[k].createdAt
  }

  function Exchanged(s: seq<Execution>, i: nat, j: nat): (t: seq<Execution>)
    requires i < j < |s|
    ensures multiset(t) == multiset(s)
  {
    s[i := s[j]][j := s[i]]
  }

  /** Exchanging a newer entry into place i unsettles nothing. */
  lemma ExchangeKeeps(s: seq<Execution>, i: nat, j: nat)
    requires i < j < |s| && Settled(s, i) && NewestOf(s, i, j) && s[i].createdAt < s[j].createdAt
    ensures var t := Exchanged(s, i, j); Settled(t, i) && NewestOf(t, i, j + 1)
  {
    var t := Exchanged(s, i, j);
    assert t[..i] == s[..i];
  }

  lemma NotNewer(s: seq<Execution>, i: nat, j: nat)
    requires i < j < |s| && NewestOf(s, i, j) && s[i].createdAt >= s[j].createdAt
    ensures NewestOf(s, i, j + 1)
  {
  }

  lemma SettlesOne(s: seq<Execution>, i: nat)
    requires i < |s| && Settled(s, i) && NewestOf(s, i, |s|)
    ensures Settled(s, i + 1)
  {
  }

  /** One comparison of the sort. */
  method Compare(a: array<Execution>, i: nat, j: nat)
    requires i < j < a.Length && Settled(a[..], i) && NewestOf(a[..], i, j)
    modifies a
    ensures Settled(a[..], i) && NewestOf(a[..], i, j + 1)
    ensures multiset(a[..]) == multiset(old(a[..]))
  {
    ghost var before := a[..];
    if a[i].createdAt < a[j].createdAt {
      ExchangeKeeps(before, i, j);
      a[i], a[j] := a[j], a[i];
      assert a[..] == Exchanged(before, i, j);
    } else {
      NotNewer(before, i, j);
    }
  }

  /** The in-place exchange sort of ListExecutionStates. */
  method SortNewestFirst(a: array<Execution>)
    modifies a
    ensures NewestFirst(a[..])
    ensures multiset(a[..]) == multiset(old(a[..]))
  {
    for i := 0 to a.Length
      invariant Settled(a[..], i)
      invariant multiset(a[..]) == multiset(old(a[..]))
    {
      for j := i + 1 to a.Length
        invariant Settled(a[..], i) && NewestOf(a[..], i, j)
        invariant multiset(a[..]) == multiset(old(a[..]))
      {
        Compare(a, i, j);
      }
      SettlesOne(a[..], i);
    }
    assert a[..][..a.Length] == a[..];
  }

  /** A stored value is an execution, or text that does not decode to one. */
  type Store = map<string, Option<Execution>>

  /** The executions that can be read, in the order in which the store lists its keys. */
  function Readable(store: Store, keys: seq<string>): seq<Execution>
  {
    if keys == [] then []
    else
      var key := keys[|keys| - 1];
      Readable(store, keys[..|keys| - 1])
      + if key in store && store[key].Some? then [store[key].value] else []
  }

  /** The places of the listing at which this execution can be read. */
  ghost function Places(store: Store, keys: seq<string>, x: Execution): set<int>
  {
    set i | 0 <= i < |keys| && keys[i] in store && store[keys[i]] == Some(x)
  }

  lemma PlacesNext(store: Store, keys: seq<string>, n: nat, x: Execution)
    requires n == |keys| - 1
    ensures |Places(store, keys, x)|
         == |Places(store, keys[..n], x)| + if keys[n] in store && store[keys[n]] == Some(x) then 1 else 0
  {
    var here := if keys[n] in store && store[keys[n]] == Some(x) then {n} else {};
    var all, before := Places(store, keys, x), Places(store, keys[..n], x);
    forall i
      ensures i in all <==> i in before + here
    {
      assert 0 <= i < n ==> keys[..n][i] == keys[i];
    }
    assert all == before + here && before !! here;
  }

  /** Each execution is read as often as the listing leads to it. */
  lemma {:induction false} ReadableCounts(store: Store, keys: seq<string>, x: Execution)
    ensures multiset(Readable(store, keys))[x] == |Places(store, keys, x)|
  {
    if keys != [] {
      var n := |keys| - 1;
      ReadableCounts(store, keys[..n], x);
      PlacesNext(store, keys, n, x);
    }
  }

  method ListExecutionStates(store: Store, keys: seq<string>) returns (states: seq<Execution>)
    ensures NewestFirst(states) && multiset(states) == multiset(Readable(store, keys))
  {
    states := [];
    for i := 0 to |keys|
      invariant states == Readable(store, keys[..i])
    {
      assert keys[..i + 1][..i] == keys[..i];
      if keys[i] in store && store[keys[i]].Some? {
        states := states + [store[keys[i]].value];
      }
    }
    assert keys[..|keys|] == keys;
    var a := new Execution[|states|](i requires 0 <= i < |states| => states[i]);
    assert a[..] == states;
    SortNewestFirst(a);
    states := a[..];
  }

  // ---------- recall ----------

  /** A stored execution that a question about the past is about. */
  predicate Matches(st: Execution, userID: string, sessionID: string, currentID: string)
  {
    && (if userID != "" then st.userID == userID else st.sessionID == sessionID)
    && st.id != currentID
    && !("system." <= st.intent)
  }

  function Matching(states: seq<Execution>, userID: string, sessionID: string, currentID: string): seq<Execution>
  {
    if states == [] then []
    else
      var last := states[|states| - 1];
      Matching(states[..|states| - 1], userID, sessionID, currentID)
      + if Matches(last, userID, sessionID, currentID) then [last] else []
  }

  function First(s: seq<Execution>, n: nat): (r: seq<Execution>)
    ensures |r| == if |s| < n then |s| else n
  {
    if |s| <= n then s else s[..n]
  }

  lemma {:induction false} MatchingGrows(states: seq<Execution>, n: nat, userID: string, sessionID: string,
      currentID: string)
    requires n <= |states|
    ensures Matching(states[..n], userID, sessionID, currentID) <= Matching(states, userID, sessionID, currentID)
    decreases |states|
  {
    if n < |states| {
      assert states[..|states| - 1][..n] == states[..n];
      MatchingGrows(states[..|states| - 1], n, userID, sessionID, currentID);
    } else {
      assert states[..n] == states;
    }
  }

  /** The loop of buildRecallResult: filter, and stop at the cap. */
  method BuildRecall(states: seq<Execution>, userID: string, sessionID: string, currentID: string)
      returns (executions: seq<Execution>)
    ensures executions == First(Matching(states, userID, sessionID, currentID), MAX_RECALL)
  {
    executions := [];
    for i := 0 to |states|
      invariant |executions| < MAX_RECALL
      invariant executions == Matching(states[..i], userID, sessionID, currentID)
    {
      MatchingGrows(states, i + 1, userID, sessionID, currentID);
      assert states[..i + 1][..i] == states[..i];
      var st := states[i];
      if userID != "" {
        if st.userID != userID {
          continue;
        }
      } else if st.sessionID != sessionID {
        continue;
      }
      if st.id == currentID {
        continue;
      }
      if "system." <= st.intent {
        continue;
      }
      executions := executions + [st];
      if |executions| >= MAX_RECALL {
        return;
      }
    }
    assert states[..|states|] == states;
  }

  /** Filtering keeps the order. */
  lemma {:induction false} MatchingNewestFirst(states: seq<Execution>, userID: string, sessionID: string,
      currentID: string)
    requires NewestFirst(states)
    ensures NewestFirst(Matching(states, userID, sessionID, currentID))
    ensures forall m <- Matching(states, userID, sessionID, currentID) :: m in states
  {
    if states != [] {
      var before := states[..|states| - 1];
      MatchingNewestFirst(before, userID, sessionID, currentID);
      var m := Matching(before, userID, sessionID, currentID);
      forall i | 0 <= i < |m|
        ensures m[i].createdAt >= states[|states| - 1].createdAt
      {
        assert m[i] in before;
      }
    }
  }

  /** Filtering is a matter of the collection, not of its order. */
  lemma {:induction false} MatchingCounts(states: seq<Execution>, userID: string, sessionID: string,
      currentID: string, x: Execution)
    ensures multiset(Matching(states, userID, sessionID, currentID))[x]
         == if (if userID != "" then x.userID == userID else x.sessionID == sessionID)
               && x.id != currentID && !("system." <= x.intent)
            then multiset(states)[x] else 0
  {
    if states != [] {
      var before := states[..|states| - 1];
      assert states == before + [states[|states| - 1]];
      MatchingCounts(before, userID, sessionID, currentID, x);
    }
  }

  ghost predicate AllAtLeast(kept: multiset<Execution>, left: multiset<Execution>)
  {
    forall x, y | x in kept && y in left :: x.createdAt >= y.createdAt
  }

  /** The recalled executions: min(cap, matches) of the matching ones, newest first, each at least
      as new as every matching one left out. */
  ghost predicate MostRecent(recalled: seq<Execution>, matching: multiset<Execution>)
  {
    && |recalled| == (if |matching| < MAX_RECALL then |matching| else MAX_RECALL)
    && multiset(recalled) <= matching
    && NewestFirst(recalled)
    && AllAtLeast(multiset(recalled), matching - multiset(recalled))
  }

  lemma CutSplits(mine: seq<Execution>, n: nat)
    requires NewestFirst(mine) && n <= |mine|
    ensures multiset(mine[..n]) <= multiset(mine)
    ensures multiset(mine) - multiset(mine[..n]) == multiset(mine[n..])
    ensures AllAtLeast(multiset(mine[..n]), multiset(mine[n..]))
  {
    assert mine == mine[..n] + mine[n..];
    forall x, y | x in multiset(mine[..n]) && y in multiset(mine[n..])
      ensures x.createdAt >= y.createdAt
    {
      assert x in mine[..n] && y in mine[n..];
    }
  }

  lemma CutIsMostRecent(mine: seq<Execution>)
    requires NewestFirst(mine)
    ensures MostRecent(First(mine, MAX_RECALL), multiset(mine))
  {
    var n := if |mine| <= MAX_RECALL then |mine| else MAX_RECALL;
    assert First(mine, MAX_RECALL) == mine[..n];
    CutSplits(mine, n);
  }

  /** However the store lists its executions, what is recalled from the sorted list are the most recent matches. */
  lemma FirstAreMostRecent(listed: seq<Execution>, sorted: seq<Execution>, userID: string, sessionID: string,
      currentID: string)
    requires NewestFirst(sorted) && multiset(sorted) == multiset(listed)
    ensures MostRecent(First(Matching(sorted, userID, sessionID, currentID), MAX_RECALL),
                       multiset(Matching(listed, userID, sessionID, currentID)))
  {
    var mine, all := Matching(sorted, userID, sessionID, currentID), Matching(listed, userID, sessionID, currentID);
    forall x: Execution
      ensures multiset(mine)[x] == multiset(all)[x]
    {
      MatchingCounts(sorted, userID, sessionID, currentID, x);
      MatchingCounts(listed, userID, sessionID, currentID, x);
    }
    assert multiset(mine) == multiset(all);
    MatchingNewestFirst(sorted, userID, sessionID, currentID);
    CutIsMostRecent(mine);
  }

  /** The execution can be read under one of the listed keys. */
  ghost predicate IsStored(store: Store, keys: seq<string>, x: Execution)
  {
    exists key <- keys :: key in store && store[key] == Some(x)
  }

  lemma StoredIsReadable(store: Store, keys: seq<string>, x: Execution)
    ensures IsStored(store, keys, x) <==> x in multiset(Readable(store, keys))
  {
    ReadableCounts(store, keys, x);
    if IsStored(store, keys, x) {
      var key :| key in keys && key in store && store[key] == Some(x);
      var i :| 0 <= i < |keys| && keys[i] == key;
      assert i in Places(store, keys, x);
    }
    if i :| i in Places(store, keys, x) {
      assert keys[i] in keys;
    }
  }

  /** At most ten executions are recalled, all of the user (or, without one, of the session), none of
      them the current one or a system's; a stored one that is left out gives way to ten newer ones. */
  lemma RecalledExactly(store: Store, keys: seq<string>, userID: string, sessionID: string, currentID: string,
      recalled: seq<Execution>, x: Execution)
    requires MostRecent(recalled, multiset(Matching(Readable(store, keys), userID, sessionID, currentID)))
    ensures |recalled| <= 10
    ensures var wanted := && IsStored(store, keys, x)
                          && (if userID != "" then x.userID == userID else x.sessionID == sessionID)
                          && x.id != currentID && !("system." <= x.intent);
      && (x in recalled ==> wanted)
      && (x !in recalled && wanted ==> |recalled| == 10 && forall y <- recalled :: y.createdAt >= x.createdAt)
  {
    var matching := Matching(Readable(store, keys), userID, sessionID, currentID);
    MatchingCounts(Readable(store, keys), userID, sessionID, currentID, x);
    StoredIsReadable(store, keys, x);
    if x in recalled {
      assert x in multiset(recalled);
    } else if x in multiset(matching) {
      assert x in multiset(matching) - multiset(recalled);
      assert |multiset(matching) - multiset(recalled)| == |matching| - |recalled|;
      forall y <- recalled
        ensures y.createdAt >= x.createdAt
      {
        assert y in multiset(recalled);
      }
    }
  }

  /** buildRecallResult over a store. */
  method Recall(store: Store, keys: seq<string>, userID: string, sessionID: string, currentID: string)
      returns (executions: seq<Execution>)
    ensures MostRecent(executions, multiset(Matching(Readable(store, keys), userID, sessionID, currentID)))
  {
    var states := ListExecutionStates(store, keys);
    executions := BuildRecall(states, userID, sessionID, currentID);
    FirstAreMostRecent(Readable(store, keys), states, userID, sessionID, currentID);
  }
}
