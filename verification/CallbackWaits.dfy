/** Waits for an external callback: written by the verifier, answered through the API, and resolved
    by a message, by a recovery scan or by a deadline scan, over a bus that may drop messages. */
module CallbackWaits {
  import opened Pipelines
  import opened JsonValues

  /** A stored execution that waits at await_callback. Empty data is not kept by the store, so that
      having none and having empty data are one. Each wait has a serial number of its own. */
  datatype Wait = Wait(serial: nat, token: string, deadline: Option<int>, data: Fields, at: Option<int>)

  datatype Message = Message(token: string, data: Fields)

  datatype End = Resumed | TimedOut | FailedClosed | Interrupted | Decided | Completed

  /** How a wait ended, and the callback data that its task got. */
  datatype Outcome = Outcome(serial: nat, end: End, used: Option<Fields>)

  /** The store and the verifier's inbox; and, kept for the record, the outcomes, what the API
      accepted first for each wait, the tokens handed out and whether one was handed out twice. */
  datatype System = System(waits: map<string, Wait>, inbox: seq<Message>, issued: nat, outcomes: seq<Outcome>,
                           first: map<nat, Fields>, tokens: set<string>, reused: bool)

  const NEW_SYSTEM := System(map[], [], 0, [], map[], {}, false)

  const INBOX_SIZE := 16

  // ---------- the guards ----------

  predicate Passed(deadline: Option<int>, now: int)
  {
    deadline.Some? && deadline.value <= now
  }

  /** The API takes a callback while the deadline is ahead. */
  predicate Open(w: Wait, now: int)
  {
    w.deadline.None? || w.deadline.value > now
  }

  /** The recovery scan hands the wait over to the callback handler. */
  predicate RecoveryDue(w: Wait)
  {
    w.token != "" && w.data != map[] && (w.deadline.None? || (w.at.Some? && w.at.value <= w.deadline.value))
  }

  /** The deadline scan closes the wait. */
  predicate ExpiryDue(w: Wait, now: int)
  {
    Passed(w.deadline, now) && !(w.data != map[] && w.at.Some? && w.at.value <= w.deadline.value)
  }

  /** The callback handler resolves the wait. */
  predicate Resolvable(w: Wait, now: int)
  {
    !(Passed(w.deadline, now) && (w.data == map[] || w.at.None? || w.at.value > w.deadline.value))
  }

  /** Past its deadline a tokened wait is the business of exactly one of the two scans, and the
      handler resolves what the deadline scan does not close. */
  lemma ExactlyOneGuard(w: Wait, now: int)
    ensures Passed(w.deadline, now) && w.token != "" ==> (RecoveryDue(w) <==> !ExpiryDue(w, now))
    ensures Resolvable(w, now) <==> !ExpiryDue(w, now)
    ensures RecoveryDue(w) ==> Resolvable(w, now)
  {
  }

  function Answered(w: Wait, data: Fields, receivedAt: int): Wait
  {
    w.(data := data, at := Some(receivedAt))
  }

  /** An accepted callback is safe from the deadline if and only if there is none, or the callback
      is not empty and was stamped by then. */
  lemma NeverExpiresExactly(w: Wait, data: Fields, receivedAt: int)
    ensures (forall now :: !ExpiryDue(Answered(w, data, receivedAt), now))
       <==> w.deadline.None? || (data != map[] && receivedAt <= w.deadline.value)
    ensures w.token != "" ==>
      (RecoveryDue(Answered(w, data, receivedAt))
       <==> data != map[] && (w.deadline.None? || receivedAt <= w.deadline.value))
  {
    var w' := Answered(w, data, receivedAt);
    if w.deadline.Some? {
      assert ExpiryDue(w', w.deadline.value) <==> !(data != map[] && receivedAt <= w.deadline.value);
    } else {
      assert forall now :: !ExpiryDue(w', now);
    }
  }

  /** With one clock reading for the check and the stamp, every callback that is not empty is safe. */
  lemma OneReadingIsInTime(w: Wait, data: Fields, receivedAt: int, now: int)
    requires Open(w, receivedAt) && data != map[]
    ensures !ExpiryDue(Answered(w, data, receivedAt), now)
  {
  }

  // ---------- the steps ----------

  function FindWait(waits: map<string, Wait>, order: seq<string>, wanted: Wait -> bool): (r: Option<string>)
    ensures r.Some? ==> r.value in waits && r.value in order && wanted(waits[r.value])
    ensures r.None? ==> forall id <- order :: id in waits ==> !wanted(waits[id])
  {
    if order == [] then None
    else if order[0] in waits && wanted(waits[order[0]]) then Some(order[0])
    else FindWait(waits, order[1..], wanted)
  }

  /** A non-blocking send into the verifier's buffered inbox. */
  function Sent(s: System, m: Message): System
  {
    if |s.inbox| < INBOX_SIZE then s.(inbox := s.inbox + [m]) else s
  }

  predicate AcceptableToken(token: string)
  {
    token != "" && |token| <= 200
  }

  /** The first callback for a wait is stored with it. */
  function FirstAnswer(s: System, id: string, data: Fields, receivedAt: int): System
    requires id in s.waits
  {
    var w := s.waits[id];
    s.(waits := s.waits[id := Answered(w, data, receivedAt)],
       first := if w.serial in s.first then s.first else s.first[w.serial := data])
  }

  /** The API's handler, for one listing of the stored executions. It reads the clock twice. */
  function Post(s: System, order: seq<string>, m: Message, now: int, receivedAt: int, saved: bool): System
  {
    var found := FindWait(s.waits, order, (w: Wait) => w.token == m.token && Open(w, now));
    if !AcceptableToken(m.token) || found.None? then s
    else
      var id := found.value;
      var w := s.waits[id];
      if w.data != map[] then Sent(s, m.(data := w.data))
      else if !saved then s
      else Sent(FirstAnswer(s, id, m.data, receivedAt), m)
  }

  datatype NewWait = NewWait(token: string, deadline: Option<int>)

  /** A run of the task comes to its await_callback step, or does not. */
  function Opened(s: System, id: string, next: Option<NewWait>): System
  {
    if next.None? || id in s.waits then s
    else s.(waits := s.waits[id := Wait(s.issued, next.value.token, next.value.deadline, map[], None)],
            issued := s.issued + 1, tokens := s.tokens + {next.value.token},
            reused := s.reused || next.value.token in s.tokens)
  }

  /** What comes of resolving a wait: the store refuses; the process stops right after the store
      took it; the journal refuses; or all goes well, and the run that follows may wait again. */
  datatype Ending = NotSaved | Crashed | NotJournaled | Done(next: Option<NewWait>)

  function Ended(s: System, id: string, end: End, used: Option<Fields>): System
    requires id in s.waits
  {
    s.(waits := s.waits - {id}, outcomes := s.outcomes + [Outcome(s.waits[id].serial, end, used)])
  }

  function Restarted(s: System): System
  {
    s.(inbox := [])
  }

  datatype Handling = Handling(now: int, ending: Ending)

  function Resolved(s: System, id: string, data: Fields, ending: Ending): System
    requires id in s.waits
  {
    var used := Some(if s.waits[id].data != map[] then s.waits[id].data else data);
    match ending
    case NotSaved => s
    case Crashed => Restarted(Ended(s, id, Interrupted, used))
    case NotJournaled => Ended(s, id, FailedClosed, used)
    case Done(next) => Opened(Ended(s, id, Resumed, used), id, next)
  }

  /** The verifier's callback handler. */
  function HandleCallback(s: System, order: seq<string>, m: Message, h: Handling): System
  {
    var found := FindWait(s.waits, order, (w: Wait) => w.token == m.token && Resolvable(w, h.now));
    if m.token == "" || found.None? then s else Resolved(s, found.value, m.data, h.ending)
  }

  /** The recovery scan over the executions listed at its start. */
  function Recover(s: System, listed: map<string, Wait>, order: seq<string>, rest: seq<string>,
      h: string -> Handling): System
    decreases |rest|
  {
    if rest == [] then s
    else
      var id := rest[0];
      if id !in listed || !RecoveryDue(listed[id]) then Recover(s, listed, order, rest[1..], h)
      else
        var s' := HandleCallback(s, order, Message(listed[id].token, listed[id].data), h(id));
        if h(id).ending.Crashed? then Restarted(s') else Recover(s', listed, order, rest[1..], h)
  }

  function Expired(s: System, id: string, now: int, ending: Ending): System
  {
    if id !in s.waits || !ExpiryDue(s.waits[id], now) then s
    else match ending
      case NotSaved => s
      case Crashed => Restarted(Ended(s, id, TimedOut, None))
      case NotJournaled => Ended(s, id, FailedClosed, None)
      case Done(_) => Ended(s, id, TimedOut, None)
  }

  /** The deadline scan. */
  function Expire(s: System, rest: seq<string>, now: int, endings: string -> Ending): System
    decreases |rest|
  {
    if rest == [] then s
    else
      var s' := Expired(s, rest[0], now, endings(rest[0]));
      if endings(rest[0]).Crashed? then Restarted(s') else Expire(s', rest[1..], now, endings)
  }

  /** What a human decision on a waiting task does to its wait: the handler does not ask what the
      stored gate is. A rejection ends the wait. An approval runs the await step again, which stores
      a new wait, without the data of the old one; or the run skips it, or ends it otherwise. */
  datatype Decision = Rejected | ApprovedAgain(next: NewWait) | ApprovedPast | ApprovedEnds

  function DecidedOn(s: System, id: string, d: Decision): System
  {
    if id !in s.waits || d.ApprovedPast? then s
    else
      var s' := Ended(s, id, Decided, None);
      if d.ApprovedAgain? then Opened(s', id, Some(d.next)) else s'
  }

  /** persistCompletion: the analyst, told at the end of a run, clears the gate and the token of
      whatever is stored, so that a wait which outlives its run is gone. */
  function CompletedAt(s: System, id: string): System
  {
    if id in s.waits then Ended(s, id, Completed, None) else s
  }

  datatype Event =
    | Decide(id: string, decision: Decision)
    | Complete(id: string)
    | Run(id: string, next: Option<NewWait>)
    | Callback(order: seq<string>, message: Message, now: int, receivedAt: int, saved: bool)
    | Deliver(order: seq<string>, handling: Handling)
    | RecoveryScan(order: seq<string>, handlings: string -> Handling)
    | DeadlineScan(order: seq<string>, now: int, endings: string -> Ending)
    | Restart

  function Advance(s: System, e: Event): System
  {
    match e
    case Run(id, next) => Opened(s, id, next)
    case Decide(id, d) => DecidedOn(s, id, d)
    case Complete(id) => CompletedAt(s, id)
    case Callback(order, m, now, receivedAt, saved) => Post(s, order, m, now, receivedAt, saved)
    case Deliver(order, h) => if s.inbox == [] then s
        else HandleCallback(s.(inbox := s.inbox[1..]), order, s.inbox[0], h)
    case RecoveryScan(order, h) => Recover(s, s.waits, order, order, h)
    case DeadlineScan(order, now, endings) => Expire(s, order, now, endings)
    case Restart => Restarted(s)
  }

  function After(s: System, events: seq<Event>): System
  {
    if events == [] then s else Advance(After(s, events[..|events| - 1]), events[|events| - 1])
  }

  // ---------- at most one outcome ----------

  predicate Has(outcomes: seq<Outcome>, serial: nat)
  {
    exists i | 0 <= i < |outcomes| :: outcomes[i].serial == serial
  }

  ghost predicate OnceInv(s: System)
  {
    && (forall i, j | 0 <= i < j < |s.outcomes| :: s.outcomes[i].serial != s.outcomes[j].serial)
    && (forall i | 0 <= i < |s.outcomes| :: s.outcomes[i].serial < s.issued)
    && (forall id <- s.waits :: s.waits[id].serial < s.issued && !Has(s.outcomes, s.waits[id].serial))
    && (forall a, b | a in s.waits && b in s.waits && a != b :: s.waits[a].serial != s.waits[b].serial)
  }

  /** What the API accepted first is what the store holds and what the task gets; a wait that was
      never answered has no data, and when no token is handed out twice nothing else resolves it. */
  ghost predicate FirstInv(s: System)
  {
    && (forall n <- s.first :: n < s.issued)
    && (forall id <- s.waits :: HoldsFirst(s, s.waits[id]))
    && (forall o <- s.outcomes :: UsedFirst(s, o))
  }

  predicate HoldsFirst(s: System, w: Wait)
  {
    if w.serial in s.first then s.first[w.serial] != map[] ==> w.data == s.first[w.serial] else w.data == map[]
  }

  predicate UsedFirst(s: System, o: Outcome)
  {
    && (o.used.Some? && o.serial in s.first && s.first[o.serial] != map[] ==> o.used.value == s.first[o.serial])
    && (o.used.Some? && !s.reused ==> o.serial in s.first)
  }

  /** While no token is handed out twice, tokens tell waits apart and messages belong to answered waits. */
  ghost predicate TokenInv(s: System)
  {
    !s.reused ==>
      && (forall id <- s.waits :: s.waits[id].token in s.tokens)
      && (forall a, b | a in s.waits && b in s.waits && a != b :: s.waits[a].token != s.waits[b].token)
      && (forall m <- s.inbox :: Vouched(s, m))
  }

  ghost predicate Vouched(s: System, m: Message)
  {
    m.token in s.tokens && forall id | id in s.waits && s.waits[id].token == m.token :: s.waits[id].serial in s.first
  }

  ghost predicate Inv(s: System)
  {
    OnceInv(s) && FirstInv(s) && TokenInv(s)
  }

  lemma OpenedOnce(s: System, id: string, next: Option<NewWait>)
    requires OnceInv(s)
    ensures OnceInv(Opened(s, id, next))
  {
  }

  lemma OpenedTokens(s: System, id: string, next: Option<NewWait>)
    requires TokenInv(s)
    ensures TokenInv(Opened(s, id, next))
  {
    var s' := Opened(s, id, next);
    forall m <- s'.inbox
      ensures !s'.reused ==> Vouched(s', m)
    {
      assert !s.reused ==> Vouched(s, m);
    }
  }

  lemma OpenedKeeps(s: System, id: string, next: Option<NewWait>)
    requires Inv(s)
    ensures Inv(Opened(s, id, next))
  {
    OpenedOnce(s, id, next);
    OpenedTokens(s, id, next);
  }

  lemma EndedOnce(s: System, id: string, end: End, used: Option<Fields>)
    requires OnceInv(s) && id in s.waits
    ensures OnceInv(Ended(s, id, end, used))
  {
    var s' := Ended(s, id, end, used);
    assert forall i | 0 <= i < |s.outcomes| :: s.outcomes[i].serial != s.waits[id].serial;
    forall a | a in s'.waits
      ensures !Has(s'.outcomes, s'.waits[a].serial)
    {
      assert a in s.waits && a != id && !Has(s.outcomes, s.waits[a].serial);
    }
  }

  lemma EndedKeeps(s: System, id: string, end: End, used: Option<Fields>)
    requires Inv(s) && id in s.waits
    requires UsedFirst(s, Outcome(s.waits[id].serial, end, used))
    ensures Inv(Ended(s, id, end, used))
  {
    EndedOnce(s, id, end, used);
    EndedFirst(s, id, end, used);
    EndedTokens(s, id, end, used);
  }

  lemma EndedFirst(s: System, id: string, end: End, used: Option<Fields>)
    requires FirstInv(s) && id in s.waits
    requires UsedFirst(s, Outcome(s.waits[id].serial, end, used))
    ensures FirstInv(Ended(s, id, end, used))
  {
  }

  lemma EndedTokens(s: System, id: string, end: End, used: Option<Fields>)
    requires TokenInv(s) && id in s.waits
    ensures TokenInv(Ended(s, id, end, used))
  {
    var s' := Ended(s, id, end, used);
    forall m <- s'.inbox
      ensures !s'.reused ==> Vouched(s', m)
    {
      assert !s.reused ==> Vouched(s, m);
    }
  }

  lemma SentKeeps(s: System, m: Message)
    requires Inv(s) && (!s.reused ==> Vouched(s, m))
    ensures Inv(Sent(s, m))
  {
    assert forall n <- Sent(s, m).inbox :: n in s.inbox || n == m;
  }

  lemma AnswerTokens(s: System, id: string, data: Fields, receivedAt: int)
    requires TokenInv(s) && id in s.waits
    ensures TokenInv(FirstAnswer(s, id, data, receivedAt))
  {
    var s' := FirstAnswer(s, id, data, receivedAt);
    forall m <- s'.inbox
      ensures !s'.reused ==> Vouched(s', m)
    {
      assert !s.reused ==> Vouched(s, m);
    }
  }

  lemma AnswerFirst(s: System, id: string, data: Fields, receivedAt: int)
    requires OnceInv(s) && FirstInv(s) && id in s.waits && s.waits[id].data == map[]
    ensures FirstInv(FirstAnswer(s, id, data, receivedAt))
  {
    assert !Has(s.outcomes, s.waits[id].serial);
    assert forall o <- s.outcomes :: o.serial != s.waits[id].serial;
  }

  lemma AnswerKeeps(s: System, id: string, data: Fields, receivedAt: int)
    requires Inv(s) && id in s.waits && s.waits[id].data == map[]
    ensures Inv(FirstAnswer(s, id, data, receivedAt))
  {
    AnswerFirst(s, id, data, receivedAt);
    AnswerTokens(s, id, data, receivedAt);
  }

  lemma PostKeeps(s: System, order: seq<string>, m: Message, now: int, receivedAt: int, saved: bool)
    requires Inv(s)
    ensures Inv(Post(s, order, m, now, receivedAt, saved))
  {
    var found := FindWait(s.waits, order, (w: Wait) => w.token == m.token && Open(w, now));
    if AcceptableToken(m.token) && found.Some? {
      var id := found.value;
      if s.waits[id].data != map[] {
        SentKeeps(s, m.(data := s.waits[id].data));
      } else if saved {
        AnswerKeeps(s, id, m.data, receivedAt);
        SentKeeps(FirstAnswer(s, id, m.data, receivedAt), m);
      }
    }
  }

  lemma RestartKeeps(s: System)
    requires Inv(s)
    ensures Inv(Restarted(s))
  {
  }

  lemma ResolvedKeeps(s: System, id: string, data: Fields, ending: Ending)
    requires Inv(s) && id in s.waits
    requires !s.reused && s.waits[id].data == map[] ==> s.waits[id].serial in s.first
    ensures Inv(Resolved(s, id, data, ending))
  {
    var w := s.waits[id];
    var used := Some(if w.data != map[] then w.data else data);
    assert HoldsFirst(s, w);
    match ending
    case NotSaved =>
    case Crashed =>
      EndedKeeps(s, id, Interrupted, used);
      RestartKeeps(Ended(s, id, Interrupted, used));
    case NotJournaled => EndedKeeps(s, id, FailedClosed, used);
    case Done(next) =>
      EndedKeeps(s, id, Resumed, used);
      OpenedKeeps(Ended(s, id, Resumed, used), id, next);
  }

  lemma HandleKeeps(s: System, order: seq<string>, m: Message, h: Handling)
    requires Inv(s)
    requires !s.reused ==> forall id | id in s.waits && s.waits[id].token == m.token && s.waits[id].data == map[] ::
        s.waits[id].serial in s.first
    ensures Inv(HandleCallback(s, order, m, h))
  {
    var found := FindWait(s.waits, order, (w: Wait) => w.token == m.token && Resolvable(w, h.now));
    if m.token != "" && found.Some? {
      ResolvedKeeps(s, found.value, m.data, h.ending);
    }
  }

  /** Waits of a listing that are still stored are unchanged, and no later wait took their token. */
  ghost predicate Since(listed: map<string, Wait>, s: System)
  {
    !s.reused ==>
      && (forall id <- listed :: listed[id].token in s.tokens)
      && (forall a, b | a in listed && b in s.waits && s.waits[b].token == listed[a].token ::
            a == b && s.waits[b] == listed[a])
  }

  lemma HandleKeepsSince(listed: map<string, Wait>, s: System, order: seq<string>, m: Message, h: Handling)
    requires Since(listed, s)
    ensures Since(listed, HandleCallback(s, order, m, h))
    ensures s.reused ==> HandleCallback(s, order, m, h).reused
  {
  }

  /** A scan hands over a wait of its listing. */
  lemma HandOverKeeps(s: System, listed: map<string, Wait>, order: seq<string>, id: string, h: Handling)
    requires Inv(s) && Since(listed, s) && id in listed && RecoveryDue(listed[id])
    ensures var s' := HandleCallback(s, order, Message(listed[id].token, listed[id].data), h);
      Inv(s') && Since(listed, s') && (s.reused ==> s'.reused)
  {
    var m := Message(listed[id].token, listed[id].data);
    HandleKeeps(s, order, m, h);
    HandleKeepsSince(listed, s, order, m, h);
  }

  lemma {:induction false} RecoverKeeps(s: System, listed: map<string, Wait>, order: seq<string>, rest: seq<string>,
      h: string -> Handling)
    requires Inv(s) && Since(listed, s)
    ensures Inv(Recover(s, listed, order, rest, h))
    ensures s.reused ==> Recover(s, listed, order, rest, h).reused
    decreases |rest|
  {
    if rest != [] {
      var id := rest[0];
      if id !in listed || !RecoveryDue(listed[id]) {
        RecoverKeeps(s, listed, order, rest[1..], h);
      } else {
        var s' := HandleCallback(s, order, Message(listed[id].token, listed[id].data), h(id));
        HandOverKeeps(s, listed, order, id, h(id));
        if h(id).ending.Crashed? {
          RestartKeeps(s');
        } else {
          RecoverKeeps(s', listed, order, rest[1..], h);
        }
      }
    }
  }

  lemma ExpiredKeeps(s: System, id: string, now: int, ending: Ending)
    requires Inv(s)
    ensures Inv(Expired(s, id, now, ending))
  {
    if id in s.waits && ExpiryDue(s.waits[id], now) && !ending.NotSaved? {
      EndedKeeps(s, id, if ending.NotJournaled? then FailedClosed else TimedOut, None);
    }
  }

  lemma {:induction false} ExpireKeeps(s: System, rest: seq<string>, now: int, endings: string -> Ending)
    requires Inv(s)
    ensures Inv(Expire(s, rest, now, endings))
    decreases |rest|
  {
    if rest != [] {
      ExpiredKeeps(s, rest[0], now, endings(rest[0]));
      if !endings(rest[0]).Crashed? {
        ExpireKeeps(Expired(s, rest[0], now, endings(rest[0])), rest[1..], now, endings);
      }
    }
  }

  lemma DeliverKeeps(s: System, order: seq<string>, h: Handling)
    requires Inv(s) && s.inbox != []
    ensures Inv(HandleCallback(s.(inbox := s.inbox[1..]), order, s.inbox[0], h))
  {
    var rest := s.(inbox := s.inbox[1..]);
    assert s.inbox[0] in s.inbox && forall n <- s.inbox[1..] :: n in s.inbox;
    assert !s.reused ==> Vouched(s, s.inbox[0]);
    forall n <- rest.inbox
      ensures !rest.reused ==> Vouched(rest, n)
    {
      assert !s.reused ==> Vouched(s, n);
    }
    HandleKeeps(rest, order, s.inbox[0], h);
  }

  lemma DecidedKeeps(s: System, id: string, d: Decision)
    requires Inv(s)
    ensures Inv(DecidedOn(s, id, d))
  {
    if id in s.waits && !d.ApprovedPast? {
      EndedKeeps(s, id, Decided, None);
      if d.ApprovedAgain? {
        OpenedKeeps(Ended(s, id, Decided, None), id, Some(d.next));
      }
    }
  }

  lemma StepKeeps(s: System, e: Event)
    requires Inv(s)
    ensures Inv(Advance(s, e))
  {
    match e
    case Run(id, next) => OpenedKeeps(s, id, next);
    case Decide(id, d) => DecidedKeeps(s, id, d);
    case Complete(id) =>
      if id in s.waits {
        EndedKeeps(s, id, Completed, None);
      }
    case Callback(order, m, now, receivedAt, saved) => PostKeeps(s, order, m, now, receivedAt, saved);
    case Deliver(order, h) =>
      if s.inbox != [] {
        DeliverKeeps(s, order, h);
      }
    case RecoveryScan(order, h) => RecoverKeeps(s, s.waits, order, order, h);
    case DeadlineScan(order, now, endings) => ExpireKeeps(s, order, now, endings);
    case Restart => RestartKeeps(s);
  }

  lemma {:induction false} RunKeeps(events: seq<Event>)
    ensures Inv(After(NEW_SYSTEM, events))
  {
    if events != [] {
      RunKeeps(events[..|events| - 1]);
      StepKeeps(After(NEW_SYSTEM, events[..|events| - 1]), events[|events| - 1]);
    }
  }

  /** Over any run of callbacks, messages, scans, decisions, completions, lost messages and crashes, a
      wait has at most one outcome, and none while it is stored. */
  lemma AtMostOneOutcome(events: seq<Event>)
    ensures var s := After(NEW_SYSTEM, events);
      && (forall i, j | 0 <= i < j < |s.outcomes| :: s.outcomes[i].serial != s.outcomes[j].serial)
      && (forall id <- s.waits :: !Has(s.outcomes, s.waits[id].serial))
  {
    RunKeeps(events);
  }

  /** A task gets the payload that the API accepted first for its wait, unless that was empty; and
      while no token is handed out twice it gets none that the API did not accept for it. */
  lemma FirstPayloadIsUsed(events: seq<Event>, o: Outcome)
    requires var s := After(NEW_SYSTEM, events); o in s.outcomes && o.used.Some?
    ensures var s := After(NEW_SYSTEM, events);
      && (o.serial in s.first && s.first[o.serial] != map[] ==> o.used.value == s.first[o.serial])
      && (!s.reused ==> o.serial in s.first)
  {
    RunKeeps(events);
  }

  // ---------- an accepted callback is not lost ----------

  /** The wait is stored as it was, or its task got its data, or a person decided, or the task was
      completed; only an answer after the deadline (of a callback that the API let in before) can have
      been closed instead. */
  ghost predicate Settles(s: System, id: string, w: Wait)
  {
    || (id in s.waits && s.waits[id] == w)
    || (exists o <- s.outcomes :: o.serial == w.serial && SettledBy(o, w))
  }

  predicate SettledBy(o: Outcome, w: Wait)
  {
    if o.used.Some? then o.used.value == w.data
    else o.end == Decided || o.end == Completed || (w.token != "" ==> !RecoveryDue(w))
  }

  lemma EndedSettles(s: System, at: string, end: End, used: Option<Fields>, id: string, w: Wait)
    requires Settles(s, id, w) && at in s.waits
    requires at == id && s.waits[id] == w ==> SettledBy(Outcome(w.serial, end, used), w)
    ensures Settles(Ended(s, at, end, used), id, w)
  {
    var s' := Ended(s, at, end, used);
    if id in s.waits && s.waits[id] == w {
      assert at == id ==> s'.outcomes[|s.outcomes|] == Outcome(w.serial, end, used);
    } else {
      var o :| o in s.outcomes && o.serial == w.serial && SettledBy(o, w);
      assert o in s'.outcomes;
    }
  }

  lemma HandleSettles(s: System, order: seq<string>, m: Message, h: Handling, id: string, w: Wait)
    requires Settles(s, id, w) && w.data != map[]
    ensures Settles(HandleCallback(s, order, m, h), id, w)
  {
    var found := FindWait(s.waits, order, (w: Wait) => w.token == m.token && Resolvable(w, h.now));
    if m.token != "" && found.Some? {
      var at := found.value;
      var used := Some(if s.waits[at].data != map[] then s.waits[at].data else m.data);
      match h.ending
      case NotSaved =>
      case Crashed => EndedSettles(s, at, Interrupted, used, id, w);
      case NotJournaled => EndedSettles(s, at, FailedClosed, used, id, w);
      case Done(next) => EndedSettles(s, at, Resumed, used, id, w);
    }
  }

  lemma {:induction false} RecoverSettles(s: System, listed: map<string, Wait>, order: seq<string>,
      rest: seq<string>, h: string -> Handling, id: string, w: Wait)
    requires Settles(s, id, w) && w.data != map[]
    ensures Settles(Recover(s, listed, order, rest, h), id, w)
    decreases |rest|
  {
    if rest != [] {
      if rest[0] !in listed || !RecoveryDue(listed[rest[0]]) {
        RecoverSettles(s, listed, order, rest[1..], h, id, w);
      } else {
        var m := Message(listed[rest[0]].token, listed[rest[0]].data);
        HandleSettles(s, order, m, h(rest[0]), id, w);
        if !h(rest[0]).ending.Crashed? {
          RecoverSettles(HandleCallback(s, order, m, h(rest[0])), listed, order, rest[1..], h, id, w);
        }
      }
    }
  }

  lemma {:induction false} ExpireSettles(s: System, rest: seq<string>, now: int, endings: string -> Ending,
      id: string, w: Wait)
    requires Settles(s, id, w) && w.data != map[]
    ensures Settles(Expire(s, rest, now, endings), id, w)
    decreases |rest|
  {
    if rest != [] {
      var at, ending := rest[0], endings(rest[0]);
      var s' := Expired(s, at, now, ending);
      if s' != s {
        EndedSettles(s, at, if ending.NotJournaled? then FailedClosed else TimedOut, None, id, w);
      }
      if !ending.Crashed? {
        ExpireSettles(s', rest[1..], now, endings, id, w);
      }
    }
  }

  lemma StepSettles(s: System, e: Event, id: string, w: Wait)
    requires Settles(s, id, w) && w.data != map[]
    ensures Settles(Advance(s, e), id, w)
  {
    match e
    case Decide(at, d) =>
      if at in s.waits && !d.ApprovedPast? {
        EndedSettles(s, at, Decided, None, id, w);
      }
    case Complete(at) =>
      if at in s.waits {
        EndedSettles(s, at, Completed, None, id, w);
      }
    case Deliver(order, h) =>
      if s.inbox != [] {
        HandleSettles(s.(inbox := s.inbox[1..]), order, s.inbox[0], h, id, w);
      }
    case RecoveryScan(order, h) => RecoverSettles(s, s.waits, order, order, h, id, w);
    case DeadlineScan(order, now, endings) => ExpireSettles(s, order, now, endings, id, w);
    case Callback(order, m, now, receivedAt, saved) => assert Post(s, order, m, now, receivedAt, saved).outcomes
        == s.outcomes;
    case _ =>
  }

  /** Once a callback that is not empty is stored, dropped and stale messages, further callbacks,
      crashes and scans leave the wait as it is or give its task exactly the stored data; in time,
      it is never closed by its deadline. Only a human decision or a completion can drop it. */
  lemma {:induction false} AcceptedCallbackIsNotLost(s: System, events: seq<Event>, id: string, w: Wait)
    requires id in s.waits && s.waits[id] == w && w.data != map[]
    ensures Settles(After(s, events), id, w)
  {
    if events != [] {
      AcceptedCallbackIsNotLost(s, events[..|events| - 1], id, w);
      StepSettles(After(s, events[..|events| - 1]), events[|events| - 1], id, w);
    }
  }

  // ---------- the next scan ----------

  /** The store takes what the scan saves, and the process does not stop. */
  ghost predicate GoesWell(h: string -> Handling)
  {
    forall id :: h(id).ending.NotJournaled? || h(id).ending.Done?
  }

  predicate TaskGot(s: System, w: Wait)
  {
    exists i | 0 <= i < |s.outcomes| ::
      s.outcomes[i].serial == w.serial && (s.outcomes[i].end == Resumed || s.outcomes[i].end == FailedClosed) &&
          s.outcomes[i].used == Some(w.data)
  }

  ghost predicate Pending(s: System, id: string, w: Wait)
  {
    (id in s.waits && s.waits[id] == w) || TaskGot(s, w)
  }

  /** Handling any wait well leaves another pending, or gives its task its data. */
  lemma HandleKeepsPending(s: System, order: seq<string>, m: Message, h: Handling, id: string, w: Wait)
    requires Pending(s, id, w) && w.data != map[]
    requires h.ending.NotJournaled? || h.ending.Done?
    ensures var s' := HandleCallback(s, order, m, h);
      && Pending(s', id, w) && (TaskGot(s, w) ==> TaskGot(s', w))
  {
    var s' := HandleCallback(s, order, m, h);
    assert |s.outcomes| <= |s'.outcomes|;
    if TaskGot(s, w) {
      assert forall i | 0 <= i < |s.outcomes| :: s'.outcomes[i] == s.outcomes[i];
    } else if id !in s'.waits || s'.waits[id] != w {
      assert s'.outcomes[|s.outcomes|].used == Some(w.data);
    }
  }

  /** A scan that lists each execution once, among them the task, that goes well, and after which
      no run hands out the token again. */
  ghost predicate FairScan(order: seq<string>, h: string -> Handling, id: string, token: string)
  {
    && id in order && (forall i, j | 0 <= i < j < |order| :: order[i] != order[j]) && GoesWell(h)
    && forall x: string :: h(x).ending.Done? && h(x).ending.next.Some? ==> h(x).ending.next.value.token != token
  }

  /** Every wait with this token is due for the scan, and still ahead of it. */
  ghost predicate DueAhead(s: System, listed: map<string, Wait>, order: seq<string>, k: nat, token: string)
    requires k <= |order|
  {
    forall x | x in s.waits && x in order && s.waits[x].token == token ::
      x in listed && s.waits[x] == listed[x] && RecoveryDue(s.waits[x]) && x in order[k..]
  }

  lemma {:induction false} FindSkips(waits: map<string, Wait>, order: seq<string>, wanted: Wait -> bool, k: nat)
    requires k <= |order| && forall x | x in order[..k] && x in waits :: !wanted(waits[x])
    ensures FindWait(waits, order, wanted) == FindWait(waits, order[k..], wanted)
  {
    if k > 0 {
      assert order[0] in order[..k];
      assert order[1..][..k - 1] == order[..k][1..] && order[1..][k - 1..] == order[k..];
      FindSkips(waits, order[1..], wanted, k - 1);
    }
  }

  /** The handler, called for the wait at position k, finds that wait. */
  lemma FindsItsOwn(s: System, listed: map<string, Wait>, order: seq<string>, k: nat, now: int)
    requires k < |order| && (forall i, j | 0 <= i < j < |order| :: order[i] != order[j])
    requires order[k] in s.waits && RecoveryDue(s.waits[order[k]])
    requires DueAhead(s, listed, order, k, s.waits[order[k]].token)
    ensures var token := s.waits[order[k]].token;
      FindWait(s.waits, order, (w: Wait) => w.token == token && Resolvable(w, now)) == Some(order[k])
  {
    var token := s.waits[order[k]].token;
    var wanted := (w: Wait) => w.token == token && Resolvable(w, now);
    forall x | x in order[..k] && x in s.waits
      ensures !wanted(s.waits[x])
    {
      var i :| 0 <= i < k && order[i] == x;
      assert forall j | k <= j < |order| :: order[j] != x;
      assert x !in order[k..];
    }
    FindSkips(s.waits, order, wanted, k);
  }

  lemma HandleKeepsAhead(s: System, listed: map<string, Wait>, order: seq<string>, k: nat, h: Handling, token: string)
    requires k < |order| && (forall i, j | 0 <= i < j < |order| :: order[i] != order[j])
    requires order[k] in listed && RecoveryDue(listed[order[k]]) && DueAhead(s, listed, order, k, token)
    requires h.ending.NotJournaled? || (h.ending.Done? && (h.ending.next.Some? ==> h.ending.next.value.token != token))
    requires order[k] in s.waits && s.waits[order[k]].token == token ==> s.waits[order[k]] == listed[order[k]]
    requires listed[order[k]].token == token ==> order[k] in s.waits && s.waits[order[k]] == listed[order[k]]
    ensures var m := Message(listed[order[k]].token, listed[order[k]].data);
      DueAhead(HandleCallback(s, order, m, h), listed, order, k + 1, token)
  {
    var x := order[k];
    var m := Message(listed[x].token, listed[x].data);
    var s' := HandleCallback(s, order, m, h);
    if listed[x].token == token {
      FindsItsOwn(s, listed, order, k, h.now);
    }
    forall y | y in s'.waits && y in order && s'.waits[y].token == token
      ensures y in listed && s'.waits[y] == listed[y] && RecoveryDue(s'.waits[y]) && y in order[k + 1..]
    {
      assert y in s.waits && s.waits[y] == s'.waits[y];
      assert order[k..] == [x] + order[k + 1..];
    }
  }

  /** The wait of the task is stored until its turn. */
  lemma HandleLeavesOthers(s: System, listed: map<string, Wait>, order: seq<string>, k: nat, h: Handling, id: string,
      w: Wait)
    requires k < |order| && (forall i, j | 0 <= i < j < |order| :: order[i] != order[j])
    requires order[k] in listed && RecoveryDue(listed[order[k]]) && DueAhead(s, listed, order, k, w.token)
    requires listed[order[k]].token == w.token ==> order[k] in s.waits && s.waits[order[k]] == listed[order[k]]
    requires id in s.waits && s.waits[id] == w && id != order[k]
    ensures var m := Message(listed[order[k]].token, listed[order[k]].data);
      id in HandleCallback(s, order, m, h).waits && HandleCallback(s, order, m, h).waits[id] == w
  {
    if listed[order[k]].token == w.token {
      FindsItsOwn(s, listed, order, k, h.now);
    }
  }

  lemma HandleGives(s: System, listed: map<string, Wait>, order: seq<string>, k: nat, h: Handling, w: Wait)
    requires k < |order| && (forall i, j | 0 <= i < j < |order| :: order[i] != order[j])
    requires order[k] in s.waits && s.waits[order[k]] == w && RecoveryDue(w) && DueAhead(s, listed, order, k, w.token)
    requires h.ending.NotJournaled? || h.ending.Done?
    ensures TaskGot(HandleCallback(s, order, Message(w.token, w.data), h), w)
  {
    var s' := HandleCallback(s, order, Message(w.token, w.data), h);
    FindsItsOwn(s, listed, order, k, h.now);
    assert s'.outcomes[|s.outcomes|].used == Some(w.data);
  }

  /** The waits with the task's token that are ahead of the scan are stored as they were listed. */
  ghost predicate StoredAhead(s: System, listed: map<string, Wait>, order: seq<string>, k: nat, token: string)
    requires k <= |order|
  {
    forall x | x in order[k..] && x in listed && listed[x].token == token && RecoveryDue(listed[x]) ::
      x in s.waits && s.waits[x] == listed[x]
  }

  lemma HandleKeepsStored(s: System, listed: map<string, Wait>, order: seq<string>, k: nat, h: Handling, token: string)
    requires k < |order| && (forall i, j | 0 <= i < j < |order| :: order[i] != order[j])
    requires order[k] in listed && RecoveryDue(listed[order[k]])
    requires DueAhead(s, listed, order, k, token) && StoredAhead(s, listed, order, k, token)
    ensures var m := Message(listed[order[k]].token, listed[order[k]].data);
      StoredAhead(HandleCallback(s, order, m, h), listed, order, k + 1, token)
  {
    assert order[k..] == [order[k]] + order[k + 1..];
    forall x | x in order[k + 1..] && x in listed && listed[x].token == token && RecoveryDue(listed[x])
      ensures var m := Message(listed[order[k]].token, listed[order[k]].data);
        x in HandleCallback(s, order, m, h).waits && HandleCallback(s, order, m, h).waits[x] == listed[x]
    {
      var i :| k + 1 <= i < |order| && order[i] == x;
      HandleLeavesOthers(s, listed, order, k, h, x, listed[x]);
    }
  }

  lemma {:induction false} ScanGives(s: System, listed: map<string, Wait>, order: seq<string>, k: nat,
      h: string -> Handling, id: string, w: Wait)
    requires k <= |order| && FairScan(order, h, id, w.token) && id in listed && listed[id] == w && RecoveryDue(w)
    requires DueAhead(s, listed, order, k, w.token) && StoredAhead(s, listed, order, k, w.token)
    requires TaskGot(s, w) || id in order[k..]
    ensures TaskGot(Recover(s, listed, order, order[k..], h), w)
    decreases |order| - k
  {
    if k < |order| {
      var x := order[k];
      assert order[k..] == [x] + order[k + 1..] && order[k..][1..] == order[k + 1..];
      if x !in listed || !RecoveryDue(listed[x]) {
        ScanGives(s, listed, order, k + 1, h, id, w);
      } else {
        var m := Message(listed[x].token, listed[x].data);
        var s' := HandleCallback(s, order, m, h(x));
        HandleKeepsAhead(s, listed, order, k, h(x), w.token);
        HandleKeepsStored(s, listed, order, k, h(x), w.token);
        if TaskGot(s, w) {
          HandleKeepsPending(s, order, m, h(x), id, w);
        } else if x == id {
          HandleGives(s, listed, order, k, h(x), w);
        }
        ScanGives(s', listed, order, k + 1, h, id, w);
      }
    }
  }

  function Early(w: Wait): int
  {
    if w.deadline.Some? then w.deadline.value - 1 else 0
  }

  /** A scan that lists an unanswered wait first, and an answered one with the same token after it. */
  lemma ScanOfTwo(s: System, id: string, other: string, h: string -> Handling)
    requires id in s.waits && !RecoveryDue(s.waits[id]) && Resolvable(s.waits[id], h(other).now)
    requires other in s.waits && s.waits[other].token == s.waits[id].token && RecoveryDue(s.waits[other])
    requires h(other).ending.NotJournaled?
    ensures Recover(s, s.waits, [id, other], [id, other], h)
         == Resolved(s, id, s.waits[other].data, NotJournaled)
  {
    var order, m := [id, other], Message(s.waits[other].token, s.waits[other].data);
    var s' := HandleCallback(s, order, m, h(other));
    var now := h(other).now;
    assert FindWait(s.waits, order, (x: Wait) => x.token == m.token && Resolvable(x, now)) == Some(id);
    assert order[1..] == [other] && [other][1..] == [];
    assert Recover(s, s.waits, order, [other], h) == Recover(s', s.waits, order, [], h) == s';
  }

  /** A scan that lists another wait with the token first, and resolves that with this one's data. */
  lemma OtherIsResumed(s: System, id: string, other: string) returns (order: seq<string>, h: string -> Handling)
    requires Inv(s) && id in s.waits && RecoveryDue(s.waits[id])
    requires other in s.waits && other != id && s.waits[other].token == s.waits[id].token &&
        !RecoveryDue(s.waits[other])
    ensures FairScan(order, h, id, s.waits[id].token)
    ensures !TaskGot(Advance(s, RecoveryScan(order, h)), s.waits[id])
  {
    var w := s.waits[id];
    var early := Early(s.waits[other]);
    order, h := [other, id], (x: string) => Handling(early, NotJournaled);
    ScanOfTwo(s, other, id, h);
    StepKeeps(s, RecoveryScan(order, h));
    assert Advance(s, RecoveryScan(order, h)).waits[id] == w;
  }

  /** Every fair scan gives an answered wait's task its stored data, and resumes it or fails it
      closed on audit, if and only if each other wait with the same token is answered as well. */
  lemma NextScanResumesExactly(events: seq<Event>, id: string)
    requires var s := After(NEW_SYSTEM, events); id in s.waits && RecoveryDue(s.waits[id])
    ensures var s := After(NEW_SYSTEM, events);
      var w := s.waits[id];
      (forall other | other in s.waits && other != id && s.waits[other].token == w.token :: RecoveryDue(s.waits[other]))
        <==> (forall order, h | FairScan(order, h, id, w.token) :: TaskGot(Advance(s, RecoveryScan(order, h)), w))
  {
    RunKeeps(events);
    var s := After(NEW_SYSTEM, events);
    var w := s.waits[id];
    if forall other | other in s.waits && other != id && s.waits[other].token == w.token ::
        RecoveryDue(s.waits[other]) {
      forall order, h | FairScan(order, h, id, w.token)
        ensures TaskGot(Advance(s, RecoveryScan(order, h)), w)
      {
        assert order[0..] == order;
        ScanGives(s, s.waits, order, 0, h, id, w);
      }
    } else {
      var other :| other in s.waits && other != id && s.waits[other].token == w.token && !RecoveryDue(s.waits[other]);
      var order, h := OtherIsResumed(s, id, other);
    }
  }

  // ---------- which data a wait is resolved with ----------

  /** The data that a message resolves a stored wait with is what the API accepted first for the
      wait, if and only if it accepted some: and that was not empty, or all the data is empty. */
  lemma UsedIsFirstExactly(events: seq<Event>, id: string, m: Message)
    requires id in After(NEW_SYSTEM, events).waits
    ensures var s := After(NEW_SYSTEM, events);
      var w := s.waits[id];
      var used := if w.data != map[] then w.data else m.data;
      (w.serial in s.first && used == s.first[w.serial])
        <==> (w.serial in s.first && (s.first[w.serial] != map[] || (w.data == map[] && m.data == map[])))
  {
    RunKeeps(events);
    var s := After(NEW_SYSTEM, events);
    assert HoldsFirst(s, s.waits[id]);
  }

  /** A message with the token is on its way, or another wait with the token was answered. */
  ghost predicate Owed(s: System, token: string)
  {
    || (exists m <- s.inbox :: m.token == token)
    || (exists x :: x in s.waits && s.waits[x].token == token && RecoveryDue(s.waits[x]))
  }

  predicate NoCallbacks(events: seq<Event>)
  {
    forall i | 0 <= i < |events| :: !events[i].Callback?
  }

  /** Has the task of this wait got any data? */
  predicate GotData(s: System, serial: nat)
  {
    exists i | 0 <= i < |s.outcomes| :: s.outcomes[i].serial == serial && s.outcomes[i].used.Some?
  }

  /** The wait is stored without data, or ended without any. */
  ghost predicate Unfed(s: System, id: string, w: Wait)
  {
    && !GotData(s, w.serial) && w.serial < s.issued
    && forall x | x in s.waits && s.waits[x].serial == w.serial :: x == id && s.waits[x] == w
  }

  lemma EndedUnfed(s: System, at: string, end: End, used: Option<Fields>, id: string, w: Wait)
    requires Unfed(s, id, w) && at in s.waits && (used.Some? ==> s.waits[at].serial != w.serial)
    ensures Unfed(Ended(s, at, end, used), id, w)
  {
  }

  lemma OpenedUnfed(s: System, at: string, next: Option<NewWait>, id: string, w: Wait)
    requires Unfed(s, id, w)
    ensures Unfed(Opened(s, at, next), id, w) && (!Owed(s, w.token) ==> !Owed(Opened(s, at, next), w.token))
  {
  }

  lemma ResolvedUnfed(s: System, at: string, data: Fields, ending: Ending, id: string, w: Wait)
    requires Unfed(s, id, w) && at in s.waits && s.waits[at].token != w.token
    ensures Unfed(Resolved(s, at, data, ending), id, w)
    ensures !Owed(s, w.token) ==> !Owed(Resolved(s, at, data, ending), w.token)
  {
    var used := Some(if s.waits[at].data != map[] then s.waits[at].data else data);
    match ending
    case NotSaved =>
    case Crashed => EndedUnfed(s, at, Interrupted, used, id, w);
    case NotJournaled => EndedUnfed(s, at, FailedClosed, used, id, w);
    case Done(next) =>
      EndedUnfed(s, at, Resumed, used, id, w);
      OpenedUnfed(Ended(s, at, Resumed, used), at, next, id, w);
  }

  lemma HandleUnfed(s: System, order: seq<string>, m: Message, h: Handling, id: string, w: Wait)
    requires Unfed(s, id, w) && m.token != w.token
    ensures Unfed(HandleCallback(s, order, m, h), id, w)
    ensures !Owed(s, w.token) ==> !Owed(HandleCallback(s, order, m, h), w.token)
  {
    var found := FindWait(s.waits, order, (w: Wait) => w.token == m.token && Resolvable(w, h.now));
    if m.token != "" && found.Some? {
      ResolvedUnfed(s, found.value, m.data, h.ending, id, w);
    }
  }

  lemma {:induction false} RecoverUnfed(s: System, listed: map<string, Wait>, order: seq<string>, rest: seq<string>,
      h: string -> Handling, id: string, w: Wait)
    requires Unfed(s, id, w) && !Owed(s, w.token)
    requires forall x | x in listed && RecoveryDue(listed[x]) :: listed[x].token != w.token
    ensures Unfed(Recover(s, listed, order, rest, h), id, w) && !Owed(Recover(s, listed, order, rest, h), w.token)
    decreases |rest|
  {
    if rest != [] {
      var x := rest[0];
      if x !in listed || !RecoveryDue(listed[x]) {
        RecoverUnfed(s, listed, order, rest[1..], h, id, w);
      } else {
        var m := Message(listed[x].token, listed[x].data);
        HandleUnfed(s, order, m, h(x), id, w);
        if !h(x).ending.Crashed? {
          RecoverUnfed(HandleCallback(s, order, m, h(x)), listed, order, rest[1..], h, id, w);
        }
      }
    }
  }

  lemma {:induction false} ExpireUnfed(s: System, rest: seq<string>, now: int, endings: string -> Ending, id: string,
      w: Wait)
    requires Unfed(s, id, w) && !Owed(s, w.token)
    ensures Unfed(Expire(s, rest, now, endings), id, w) && !Owed(Expire(s, rest, now, endings), w.token)
    decreases |rest|
  {
    if rest != [] {
      var s' := Expired(s, rest[0], now, endings(rest[0]));
      if s' != s {
        EndedUnfed(s, rest[0], TimedOut, None, id, w);
        EndedUnfed(s, rest[0], FailedClosed, None, id, w);
      }
      if !endings(rest[0]).Crashed? {
        ExpireUnfed(s', rest[1..], now, endings, id, w);
      }
    }
  }

  lemma StepUnfed(s: System, e: Event, id: string, w: Wait)
    requires Unfed(s, id, w) && !Owed(s, w.token) && !e.Callback?
    ensures Unfed(Advance(s, e), id, w) && !Owed(Advance(s, e), w.token)
  {
    match e
    case Decide(at, d) =>
      if at in s.waits && !d.ApprovedPast? {
        EndedUnfed(s, at, Decided, None, id, w);
      }
    case Complete(at) =>
      if at in s.waits {
        EndedUnfed(s, at, Completed, None, id, w);
      }
    case Deliver(order, h) =>
      if s.inbox != [] {
        assert s.inbox[0] in s.inbox && forall m <- s.inbox[1..] :: m in s.inbox;
        HandleUnfed(s.(inbox := s.inbox[1..]), order, s.inbox[0], h, id, w);
      }
    case RecoveryScan(order, h) => RecoverUnfed(s, s.waits, order, order, h, id, w);
    case DeadlineScan(order, now, endings) => ExpireUnfed(s, order, now, endings, id, w);
    case _ =>
  }

  lemma {:induction false} RunUnfed(s: System, events: seq<Event>, id: string, w: Wait)
    requires Unfed(s, id, w) && !Owed(s, w.token) && NoCallbacks(events)
    ensures Unfed(After(s, events), id, w) && !Owed(After(s, events), w.token)
  {
    if events != [] {
      var last := |events| - 1;
      RunUnfed(s, events[..last], id, w);
      StepUnfed(After(s, events[..last]), events[last], id, w);
    }
  }

  /** Messages that find nothing are delivered one after the other. */
  lemma {:induction false} SkipMessages(s: System, k: nat) returns (events: seq<Event>)
    requires k <= |s.inbox|
    ensures NoCallbacks(events) && After(s, events) == s.(inbox := s.inbox[k..])
  {
    if k == 0 {
      events := [];
    } else {
      events := SkipMessages(s, k - 1);
      OneMore(s, events, Deliver([], Handling(0, NotSaved)));
      events := events + [Deliver([], Handling(0, NotSaved))];
    }
  }

  lemma FindsAlone(waits: map<string, Wait>, id: string, token: string, now: int)
    requires id in waits && waits[id].token == token && Resolvable(waits[id], now)
    ensures FindWait(waits, [id], (w: Wait) => w.token == token && Resolvable(w, now)) == Some(id)
  {
  }

  lemma LeftoverMessageResumes(s: System, id: string, k: nat) returns (events: seq<Event>)
    requires id in s.waits && s.waits[id].token != "" && s.waits[id].data == map[]
    requires k < |s.inbox| && s.inbox[k].token == s.waits[id].token
    ensures NoCallbacks(events) && GotData(After(s, events), s.waits[id].serial)
  {
    var w := s.waits[id];
    var e := Deliver([id], Handling(Early(w), NotJournaled));
    events := SkipMessages(s, k);
    var s1 := After(s, events);
    OneMore(s, events, e);
    FindsAlone(s.waits, id, w.token, Early(w));
    events := events + [e];
    assert After(s, events).outcomes[|s.outcomes|] == Outcome(w.serial, FailedClosed, Some(s.inbox[k].data));
  }

  lemma FailedClosedGetsData(s: System, id: string, data: Fields)
    requires id in s.waits && s.waits[id].data == map[]
    ensures GotData(Resolved(s, id, data, NotJournaled), s.waits[id].serial)
  {
    assert Resolved(s, id, data, NotJournaled).outcomes[|s.outcomes|]
        == Outcome(s.waits[id].serial, FailedClosed, Some(data));
  }

  lemma TwinScan(s: System, id: string, other: string) returns (e: Event)
    requires id in s.waits && s.waits[id].token != "" && s.waits[id].data == map[]
    requires other in s.waits && s.waits[other].token == s.waits[id].token && RecoveryDue(s.waits[other])
    ensures e.RecoveryScan? && GotData(Advance(s, e), s.waits[id].serial)
  {
    var early := Early(s.waits[id]);
    var h := (x: string) => Handling(early, NotJournaled);
    ScanOfTwo(s, id, other, h);
    FailedClosedGetsData(s, id, s.waits[other].data);
    e := RecoveryScan([id, other], h);
  }

  lemma AnsweredTwinResumes(s: System, id: string, other: string) returns (events: seq<Event>)
    requires id in s.waits && s.waits[id].token != "" && s.waits[id].data == map[]
    requires other in s.waits && s.waits[other].token == s.waits[id].token && RecoveryDue(s.waits[other])
    ensures NoCallbacks(events) && GotData(After(s, events), s.waits[id].serial)
  {
    var e := TwinScan(s, id, other);
    events := [] + [e];
    OneMore(s, [], e);
  }

  /** A wait that was not answered can be resolved with data although no callback comes any more,
      if and only if a message with its token is left over, or another wait with it was answered. */
  lemma UnansweredIsResumedExactly(before: seq<Event>, id: string)
    requires var s := After(NEW_SYSTEM, before);
      id in s.waits && s.waits[id].serial !in s.first && s.waits[id].token != ""
    ensures var s := After(NEW_SYSTEM, before);
      Owed(s, s.waits[id].token) <==>
        (exists events :: NoCallbacks(events) && GotData(After(s, events), s.waits[id].serial))
  {
    RunKeeps(before);
    var s := After(NEW_SYSTEM, before);
    var w := s.waits[id];
    assert HoldsFirst(s, w);
    if Owed(s, w.token) {
      if m :| m in s.inbox && m.token == w.token {
        var k :| 0 <= k < |s.inbox| && s.inbox[k] == m;
        var events := LeftoverMessageResumes(s, id, k);
      } else {
        var other :| other in s.waits && s.waits[other].token == w.token && RecoveryDue(s.waits[other]);
        var events := AnsweredTwinResumes(s, id, other);
      }
    } else {
      forall events | NoCallbacks(events)
        ensures !GotData(After(s, events), w.serial)
      {
        assert Unfed(s, id, w);
        RunUnfed(s, events, id, w);
      }
    }
  }

  // ---------- what reuse, decisions, empty callbacks and a second clock reading do ----------

  lemma OneMore(s: System, events: seq<Event>, e: Event)
    ensures After(s, events + [e]) == Advance(After(s, events), e)
  {
    assert (events + [e])[..|events|] == events;
  }

  /** A wait that got an empty callback, the message of which was lost. */
  function EmptyAnswered(id: string, token: string): System
  {
    System(map[id := Wait(0, token, None, map[], Some(0))], [], 1, [], map[0 := map[]], {token}, false)
  }

  function EmptyEvents(id: string, token: string): seq<Event>
  {
    [] + [Run(id, Some(NewWait(token, None)))] + [Callback([id], Message(token, map[]), 0, 0, true)] + [Restart]
  }

  lemma EmptyIsPosted(id: string, token: string, order: seq<string>)
    requires AcceptableToken(token) && order == [id]
    ensures var s := EmptyAnswered(id, token);
      Post(s.(waits := map[id := Wait(0, token, None, map[], None)], first := map[]), order, Message(token, map[]),
          0, 0, true)
        == s.(inbox := [Message(token, map[])])
  {
  }

  lemma EmptyIsAnswered(id: string, token: string)
    requires AcceptableToken(token)
    ensures After(NEW_SYSTEM, EmptyEvents(id, token)) == EmptyAnswered(id, token)
  {
    var e1, e2 := Run(id, Some(NewWait(token, None))), Callback([id], Message(token, map[]), 0, 0, true);
    OneMore(NEW_SYSTEM, [], e1);
    OneMore(NEW_SYSTEM, [] + [e1], e2);
    OneMore(NEW_SYSTEM, [] + [e1] + [e2], Restart);
    EmptyIsPosted(id, token, [id]);
  }

  /** An accepted empty callback is as good as none to the store: when its message is lost, the
      next callback is taken as the first and the task gets that one. */
  lemma EmptyCallbackIsForgotten(id: string, token: string, later: Fields)
    requires AcceptableToken(token) && later != map[]
    ensures var s := After(NEW_SYSTEM, EmptyEvents(id, token) + [Callback([id], Message(token, later), 1, 1, true)]
        + [Deliver([id], Handling(2, Done(None)))]);
      s.first == map[0 := map[]] && s.outcomes == [Outcome(0, Resumed, Some(later))]
  {
    var e4, e5 := Callback([id], Message(token, later), 1, 1, true), Deliver([id], Handling(2, Done(None)));
    EmptyIsAnswered(id, token);
    OneMore(NEW_SYSTEM, EmptyEvents(id, token), e4);
    OneMore(NEW_SYSTEM, EmptyEvents(id, token) + [e4], e5);
    var s3 := EmptyAnswered(id, token);
    var s4 := s3.(waits := map[id := Wait(0, token, None, later, Some(1))], inbox := [Message(token, later)]);
    assert Advance(s3, e4) == s4;
  }

  /** A wait, and two callbacks for it. */
  function PostedTwice(id: string, token: string, data: Fields): seq<Event>
  {
    var post := Callback([id], Message(token, data), 0, 0, true);
    [] + [Run(id, Some(NewWait(token, None)))] + [post] + [post]
  }

  lemma AfterPostedTwice(id: string, token: string, data: Fields)
    requires AcceptableToken(token) && data != map[]
    ensures var m := Message(token, data);
      After(NEW_SYSTEM, PostedTwice(id, token, data))
        == System(map[id := Wait(0, token, None, data, Some(0))], [m, m], 1, [], map[0 := data], {token}, false)
  {
    var open, post := Run(id, Some(NewWait(token, None))), Callback([id], Message(token, data), 0, 0, true);
    OneMore(NEW_SYSTEM, [], open);
    OneMore(NEW_SYSTEM, [] + [open], post);
    OneMore(NEW_SYSTEM, [] + [open] + [post], post);
    TwicePosted(id, token, data, [id]);
  }

  /** A run's later await step hands out the token again, and the message of a second callback
      that the first wait got resumes it with the old data. */
  lemma ReusedTokenIsResumedWithOldData(id: string, token: string, data: Fields)
    requires AcceptableToken(token) && data != map[]
    ensures var take := Deliver([id], Handling(1, Done(Some(NewWait(token, None)))));
      var s := After(NEW_SYSTEM, PostedTwice(id, token, data) + [take] + [take]);
      && s.first == map[0 := data]
      && s.outcomes == [Outcome(0, Resumed, Some(data))] + [Outcome(1, Resumed, Some(data))]
  {
    var take := Deliver([id], Handling(1, Done(Some(NewWait(token, None)))));
    AfterPostedTwice(id, token, data);
    OneMore(NEW_SYSTEM, PostedTwice(id, token, data), take);
    OneMore(NEW_SYSTEM, PostedTwice(id, token, data) + [take], take);
    var s1 := TakeOne(After(NEW_SYSTEM, PostedTwice(id, token, data)), id, token, 1);
    var s2 := TakeOne(s1, id, token, 1);
  }

  lemma TwicePosted(id: string, token: string, data: Fields, order: seq<string>)
    requires AcceptableToken(token) && data != map[] && order == [id]
    ensures var m := Message(token, data);
      var s1 := System(map[id := Wait(0, token, None, map[], None)], [], 1, [], map[], {token}, false);
      Post(Post(s1, order, m, 0, 0, true), order, m, 0, 0, true)
        == System(map[id := Wait(0, token, None, data, Some(0))], [m, m], 1, [], map[0 := data], {token}, false)
  {
  }

  lemma TakeOne(s: System, id: string, token: string, now: int) returns (s': System)
    requires s.inbox != [] && s.inbox[0].token == token != "" && id in s.waits && s.waits.Keys == {id}
    requires s.waits[id].token == token && s.waits[id].deadline.None?
    ensures s' == Advance(s, Deliver([id], Handling(now, Done(Some(NewWait(token, None))))))
    ensures s'.inbox == s.inbox[1..] && s'.waits == map[id := Wait(s.issued, token, None, map[], None)] &&
        s'.issued == s.issued + 1
    ensures s'.first == s.first
    ensures s'.outcomes == s.outcomes
      + [Outcome(s.waits[id].serial, Resumed, Some(if s.waits[id].data != map[] then s.waits[id].data
          else s.inbox[0].data))]
  {
    FindsAlone(s.waits, id, token, now);
    s' := Advance(s, Deliver([id], Handling(now, Done(Some(NewWait(token, None))))));
  }

  /** A person approves a task that waits for a callback: the await step runs again, and the wait it
      stores lacks what the API had accepted. */
  lemma DecisionDropsTheCallback(s: System, id: string, next: NewWait)
    requires id in s.waits && s.waits[id].data != map[] && s.waits[id].serial < s.issued
    ensures var s' := Advance(s, Decide(id, ApprovedAgain(next)));
      && id in s'.waits && s'.waits[id].data == map[] && !RecoveryDue(s'.waits[id])
      && Outcome(s.waits[id].serial, Decided, None) in s'.outcomes
  {
    var s' := Advance(s, Decide(id, ApprovedAgain(next)));
    assert s'.outcomes[|s.outcomes|] == Outcome(s.waits[id].serial, Decided, None);
  }

  /** The API accepts a callback for a wait that outlived its run, the message is lost, and the
      analyst's completion drops the data: nobody decided anything, and no scan resumes the task. */
  lemma CompletionDropsTheCallback(id: string, token: string, data: Fields)
    requires AcceptableToken(token) && data != map[]
    ensures var s := After(NEW_SYSTEM, PostedTwice(id, token, data) + [Restart] + [Complete(id)]);
      && s.first == map[0 := data] && s.outcomes == [Outcome(0, Completed, None)]
      && s.waits == map[] && s.inbox == []
  {
    AfterPostedTwice(id, token, data);
    OneMore(NEW_SYSTEM, PostedTwice(id, token, data), Restart);
    OneMore(NEW_SYSTEM, PostedTwice(id, token, data) + [Restart], Complete(id));
  }

  /** The check and the stamp read the clock one after the other: a callback let in just before
      the deadline may be stamped after it, and is then closed by the deadline. */
  lemma LateStampExpires(w: Wait, data: Fields)
    requires w.deadline.Some?
    ensures var d := w.deadline.value;
      Open(w, d - 1) && ExpiryDue(Answered(w, data, d + 1), d + 1) && !Resolvable(Answered(w, data, d + 1), d + 1)
  {
  }

  // ---------- what the handlers do to one wait ----------

  /** The k-th of a listing is the first that is stored with this token, and open or resolvable. */
  ghost predicate FirstWith(waits: map<string, Wait>, order: seq<string>, k: nat, token: string, fits: Wait -> bool)
  {
    && k < |order| && order[k] in waits && waits[order[k]].token == token && fits(waits[order[k]])
    && forall i | 0 <= i < k && order[i] in waits && waits[order[i]].token == token :: !fits(waits[order[i]])
  }

  lemma {:induction false} FindsFirst(waits: map<string, Wait>, order: seq<string>, k: nat, token: string,
      fits: Wait -> bool, wanted: Wait -> bool)
    requires FirstWith(waits, order, k, token, fits)
    requires forall w :: wanted(w) <==> w.token == token && fits(w)
    ensures FindWait(waits, order, wanted) == Some(order[k])
  {
    if k > 0 {
      assert order[0] in waits ==> !wanted(waits[order[0]]);
      FindsFirst(waits, order[1..], k - 1, token, fits, wanted);
    }
  }

  /** The API takes a callback for the first listed wait with its token whose deadline lies ahead. What it
      had stored before it sends on again; else it stores the callback, or refuses it when it cannot. */
  lemma PostExactly(s: System, order: seq<string>, m: Message, now: int, receivedAt: int, saved: bool, k: nat)
    requires 0 < |m.token| <= 200
    requires FirstWith(s.waits, order, k, m.token, (w: Wait) => w.deadline.Some? ==> now < w.deadline.value)
    ensures var s', id := Post(s, order, m, now, receivedAt, saved), order[k];
      var w := s.waits[id];
      var sent := Message(m.token, if w.data != map[] then w.data else m.data);
      var inbox := if |s.inbox| < 16 then s.inbox + [sent] else s.inbox;
      && s'.outcomes == s.outcomes && s'.issued == s.issued && s'.tokens == s.tokens && s'.reused == s.reused
      && (w.data != map[] ==> s'.waits == s.waits && s'.first == s.first && s'.inbox == inbox)
      && (w.data == map[] && !saved ==> s' == s)
      && (w.data == map[] && saved ==>
            && s'.waits == s.waits[id := Wait(w.serial, w.token, w.deadline, m.data, Some(receivedAt))]
            && s'.inbox == inbox
            && s'.first == if w.serial in s.first then s.first else s.first[w.serial := m.data])
  {
    FindsFirst(s.waits, order, k, m.token, (w: Wait) => w.deadline.Some? ==> now < w.deadline.value,
      (w: Wait) => w.token == m.token && Open(w, now));
  }

  /** It takes no other: a token that is empty or too long, or of no listed wait, or of waits whose
      deadline has come. */
  lemma PostRefuses(s: System, order: seq<string>, m: Message, now: int, receivedAt: int, saved: bool)
    requires |m.token| == 0 || |m.token| > 200
      || forall id <- order | id in s.waits && s.waits[id].token == m.token ::
           s.waits[id].deadline.Some? && s.waits[id].deadline.value <= now
    ensures Post(s, order, m, now, receivedAt, saved) == s
  {
  }

  /** The verifier resolves the first listed wait with the message's token that is not overdue, or was
      answered in time: with what the wait had got, or else with the message. */
  lemma HandleExactly(s: System, order: seq<string>, m: Message, h: Handling, k: nat)
    requires m.token != ""
    requires FirstWith(s.waits, order, k, m.token, (w: Wait) => w.deadline.Some? && w.deadline.value <= h.now ==>
      w.data != map[] && w.at.Some? && w.at.value <= w.deadline.value)
    ensures var s', id := HandleCallback(s, order, m, h), order[k];
      var w := s.waits[id];
      var used := Some(if w.data != map[] then w.data else m.data);
      && s'.first == s.first
      && (h.ending == NotSaved ==> s' == s)
      && (h.ending == Crashed ==>
            s'.waits == s.waits - {id} && s'.inbox == []
            && s'.outcomes == s.outcomes + [Outcome(w.serial, Interrupted, used)])
      && (h.ending == NotJournaled ==>
            s'.waits == s.waits - {id} && s'.inbox == s.inbox
            && s'.outcomes == s.outcomes + [Outcome(w.serial, FailedClosed, used)])
      && (h.ending.Done? ==>
            s'.inbox == s.inbox && s'.outcomes == s.outcomes + [Outcome(w.serial, Resumed, used)]
            && s'.waits == match h.ending.next
                           case None => s.waits - {id}
                           case Some(next) => s.waits[id := Wait(s.issued, next.token, next.deadline, map[], None)])
  {
    FindsFirst(s.waits, order, k, m.token, (w: Wait) => w.deadline.Some? && w.deadline.value <= h.now ==>
      w.data != map[] && w.at.Some? && w.at.value <= w.deadline.value,
      (w: Wait) => w.token == m.token && Resolvable(w, h.now));
    if h.ending.Done? && h.ending.next.Some? {
      var next := h.ending.next.value;
      assert (s.waits - {order[k]})[order[k] := Wait(s.issued, next.token, next.deadline, map[], None)]
        == s.waits[order[k] := Wait(s.issued, next.token, next.deadline, map[], None)];
    }
  }

  /** It resolves no other. */
  lemma HandleIgnores(s: System, order: seq<string>, m: Message, h: Handling)
    requires m.token == ""
      || forall id <- order | id in s.waits && s.waits[id].token == m.token ::
           var w := s.waits[id];
           && w.deadline.Some? && w.deadline.value <= h.now
           && !(w.data != map[] && w.at.Some? && w.at.value <= w.deadline.value)
    ensures HandleCallback(s, order, m, h) == s
  {
  }

  /** The wait's deadline has come, and it was not answered by then. */
  ghost predicate Overdue(w: Wait, now: int)
  {
    && w.deadline.Some? && w.deadline.value <= now
    && (w.data == map[] || w.at.None? || w.deadline.value < w.at.value)
  }

  /** How many of a listing the deadline scan comes to: all, or those up to a crash. */
  ghost predicate ScansUpTo(order: seq<string>, endings: string -> Ending, k: nat)
  {
    && k <= |order| && (forall i, j | 0 <= i < j < |order| :: order[i] != order[j])
    && (forall i | 0 <= i < k - 1 :: endings(order[i]) != Crashed)
    && (k < |order| ==> k > 0 && endings(order[k - 1]) == Crashed)
  }

  /** What the scan leaves of a wait that it came to. */
  ghost predicate ClosedOrKept(s: System, s': System, x: string, scanned: bool, now: int, ending: Ending)
    requires x in s.waits && s.outcomes <= s'.outcomes
  {
    var w := s.waits[x];
    if scanned && Overdue(w, now) && ending != NotSaved then
      && x !in s'.waits
      && Outcome(w.serial, if ending == NotJournaled then FailedClosed else TimedOut, None)
           in s'.outcomes[|s.outcomes|..]
    else x in s'.waits && s'.waits[x] == w
  }

  lemma ExpiredExactly(s: System, x: string, now: int, ending: Ending)
    ensures var s' := Expired(s, x, now, ending);
      && s.outcomes <= s'.outcomes && s'.waits.Keys <= s.waits.Keys && s'.issued == s.issued && s'.first == s.first
      && (forall y <- s.waits :: ClosedOrKept(s, s', y, y == x, now, ending))
      && (ending != Crashed ==> s'.inbox == s.inbox)
  {
    var s' := Expired(s, x, now, ending);
    if x in s.waits && Overdue(s.waits[x], now) && ending != NotSaved {
      assert s'.outcomes[|s.outcomes|..][0].serial == s.waits[x].serial;
    }
  }

  /** The deadline scan: of the waits that it comes to, all that are overdue are closed, and nothing else
      happens; a crash loses the inbox, and leaves the waits behind it as they were. */
  lemma {:induction false} ExpireExactly(s: System, order: seq<string>, now: int, endings: string -> Ending, k: nat)
    requires ScansUpTo(order, endings, k)
    ensures var s' := Expire(s, order, now, endings);
      && s.outcomes <= s'.outcomes && s'.waits.Keys <= s.waits.Keys && s'.issued == s.issued && s'.first == s.first
      && (forall x <- s.waits :: ClosedOrKept(s, s', x, x in order[..k], now, endings(x)))
      && s'.inbox == if k > 0 && endings(order[k - 1]) == Crashed then [] else s.inbox
    decreases |order|
  {
    if k > 0 {
      var x := order[0];
      var s1, s' := Expired(s, x, now, endings(x)), Expire(s, order, now, endings);
      ExpiredExactly(s, x, now, endings(x));
      if endings(x) == Crashed {
        assert k == 1 && order[..1] == [x];
      } else {
        assert order[..k] == [x] + order[1..][..k - 1];
        ExpireExactly(s1, order[1..], now, endings, k - 1);
        forall y <- s.waits
          ensures ClosedOrKept(s, s', y, y in order[..k], now, endings(y))
        {
          ScannedOnce(order, k);
          LaterScanKeeps(s, s1, s', x, y, y in order[1..][..k - 1], now, endings(y));
        }
      }
    }
  }

  lemma ScannedOnce(order: seq<string>, k: nat)
    requires 0 < k <= |order| && forall i, j | 0 <= i < j < |order| :: order[i] != order[j]
    ensures order[0] !in order[1..][..k - 1]
  {
  }

  lemma LaterScanKeeps(s: System, s1: System, s': System, x: string, y: string, later: bool, now: int, ending: Ending)
    requires y in s.waits && s.outcomes <= s1.outcomes <= s'.outcomes && s'.waits.Keys <= s1.waits.Keys
    requires ClosedOrKept(s, s1, y, y == x, now, ending) && !(later && y == x)
    requires y in s1.waits ==> ClosedOrKept(s1, s', y, later, now, ending)
    ensures ClosedOrKept(s, s', y, y == x || later, now, ending)
  {
    assert s'.outcomes[|s.outcomes|..] == s1.outcomes[|s.outcomes|..] + s'.outcomes[|s1.outcomes|..];
  }

  /** On any system that a run reaches: the wait that a scan closes has one outcome and no data. */
  lemma DeadlineScanExactly(events: seq<Event>, order: seq<string>, now: int, endings: string -> Ending, k: nat)
    requires ScansUpTo(order, endings, k)
    ensures var s := After(NEW_SYSTEM, events);
      var s' := After(NEW_SYSTEM, events + [DeadlineScan(order, now, endings)]);
      && s.outcomes <= s'.outcomes && s'.waits.Keys <= s.waits.Keys
      && (forall x <- s.waits :: ClosedOrKept(s, s', x, x in order[..k], now, endings(x)))
      && (forall i, j | 0 <= i < j < |s'.outcomes| :: s'.outcomes[i].serial != s'.outcomes[j].serial)
      && s'.inbox == if k > 0 && endings(order[k - 1]) == Crashed then [] else s.inbox
  {
    OneMore(NEW_SYSTEM, events, DeadlineScan(order, now, endings));
    ExpireExactly(After(NEW_SYSTEM, events), order, now, endings, k);
    AtMostOneOutcome(events + [DeadlineScan(order, now, endings)]);
  }

  /** A decision on a waiting task, as far as the wait goes. */
  lemma DecidesExactly(s: System, id: string, d: Decision)
    ensures var s' := Advance(s, Decide(id, d));
      && s'.inbox == s.inbox && s'.first == s.first
      && (id !in s.waits || d == ApprovedPast ==> s' == s)
      && (id in s.waits && d != ApprovedPast ==>
            && s'.outcomes == s.outcomes + [Outcome(s.waits[id].serial, Decided, None)]
            && s'.waits == if d.ApprovedAgain?
                 then s.waits[id := Wait(s.issued, d.next.token, d.next.deadline, map[], None)]
                 else s.waits - {id})
  {
    if id in s.waits && d.ApprovedAgain? {
      var w := Wait(s.issued, d.next.token, d.next.deadline, map[], None);
      assert (s.waits - {id})[id := w] == s.waits[id := w];
    }
  }

  /** The recovery scan leaves alone every wait whose token no due wait of the listing has. */
  lemma {:induction false} RecoverLeaves(s: System, listed: map<string, Wait>, order: seq<string>, rest: seq<string>,
      h: string -> Handling, x: string)
    requires x in s.waits
    requires forall y <- listed | listed[y].token == s.waits[x].token ::
      var w := listed[y];
      w.token == "" || w.data == map[]
        || (w.deadline.Some? && (w.at.None? || w.deadline.value < w.at.value))
    ensures var s' := Recover(s, listed, order, rest, h); x in s'.waits && s'.waits[x] == s.waits[x]
    decreases |rest|
  {
    if rest != [] {
      var id := rest[0];
      if id !in listed || !RecoveryDue(listed[id]) {
        RecoverLeaves(s, listed, order, rest[1..], h, x);
      } else {
        var s1 := HandleCallback(s, order, Message(listed[id].token, listed[id].data), h(id));
        assert x in s1.waits && s1.waits[x] == s.waits[x];
        if !h(id).ending.Crashed? {
          RecoverLeaves(s1, listed, order, rest[1..], h, x);
        }
      }
    }
  }

  // ---------- the handlers as they run ----------

  class Desk {
    var waits: map<string, Wait>
    var inbox: seq<Message>
    var outcomes: seq<Outcome>
    var issued: nat
    var first: map<nat, Fields>
    var tokens: set<string>
    var reused: bool

    ghost function Contents(): System
      reads this
    {
      System(waits, inbox, issued, outcomes, first, tokens, reused)
    }

    constructor ()
      ensures Contents() == NEW_SYSTEM
    {
      waits, inbox, outcomes, issued, first, tokens, reused := map[], [], [], 0, map[], {}, false;
    }

    method Send(m: Message)
      modifies this`inbox
      ensures Contents() == Sent(old(Contents()), m)
    {
      if |inbox| < INBOX_SIZE {
        inbox := inbox + [m];
      }
    }

    /** handleCallback of the API: accepts, stores what it had not, and tells the verifier. */
    method PostCallback(order: seq<string>, m: Message, now: int, receivedAt: int, saved: bool) returns (accepted: bool)
      modifies this
      ensures Contents() == Post(old(Contents()), order, m, now, receivedAt, saved)
      ensures !accepted ==> Contents() == old(Contents())
    {
      if !AcceptableToken(m.token) {
        return false;
      }
      ghost var wanted := (w: Wait) => w.token == m.token && Open(w, now);
      for i := 0 to |order|
        invariant FindWait(waits, order, wanted) == FindWait(waits, order[i..], wanted)
        invariant Contents() == old(Contents())
      {
        var id := order[i];
        if id in waits && waits[id].token == m.token && (waits[id].deadline.None? || waits[id].deadline.value > now) {
          var w := waits[id];
          var duplicate := w.data != map[];
          if !duplicate {
            if !saved {
              return false;
            }
            first := if w.serial in first then first else first[w.serial := m.data];
            waits := waits[id := w.(data := m.data, at := Some(receivedAt))];
          }
          Send(Message(m.token, if duplicate then w.data else m.data));
          return true;
        }
      }
      accepted := false;
    }

    /** The run that a resolution starts, as far as the wait is concerned. */
    method Resume(id: string, next: Option<NewWait>)
      modifies this
      ensures Contents() == Opened(old(Contents()), id, next)
    {
      if next.Some? && id !in waits {
        waits := waits[id := Wait(issued, next.value.token, next.value.deadline, map[], None)];
        issued, reused, tokens := issued + 1, reused || next.value.token in tokens, tokens + {next.value.token};
      }
    }

    /** The wait leaves the store in the write that records how it ended. */
    method Save(id: string, end: End, used: Option<Fields>)
      requires id in waits
      modifies this
      ensures Contents() == Ended(old(Contents()), id, end, used)
    {
      outcomes := outcomes + [Outcome(waits[id].serial, end, used)];
      waits := waits - {id};
    }

    /** handleCallback of the verifier. */
    method HandleMessage(order: seq<string>, m: Message, h: Handling)
      modifies this
      ensures Contents() == HandleCallback(old(Contents()), order, m, h)
    {
      if m.token == "" {
        return;
      }
      ghost var wanted := (w: Wait) => w.token == m.token && Resolvable(w, h.now);
      for i := 0 to |order|
        invariant FindWait(waits, order, wanted) == FindWait(waits, order[i..], wanted)
        invariant Contents() == old(Contents())
      {
        var id := order[i];
        if id !in waits || waits[id].token != m.token {
          continue;
        }
        var w := waits[id];
        if w.deadline.Some? && w.deadline.value <= h.now &&
            (w.data == map[] || w.at.None? || w.at.value > w.deadline.value) {
          continue;
        }
        var used := Some(if w.data != map[] then w.data else m.data);
        match h.ending {
          case NotSaved =>
          case Crashed =>
            Save(id, Interrupted, used);
            inbox := [];
          case NotJournaled =>
            Save(id, FailedClosed, used);
          case Done(next) =>
            Save(id, Resumed, used);
            Resume(id, next);
        }
        return;
      }
    }

    /** A human decision on a task that waits for a callback. */
    method DecideOnWait(id: string, d: Decision)
      modifies this
      ensures Contents() == Advance(old(Contents()), Decide(id, d))
    {
      if id !in waits || d.ApprovedPast? {
        return;
      }
      Save(id, Decided, None);
      if d.ApprovedAgain? {
        Resume(id, Some(d.next));
      }
    }

    /** persistCompletion of the analyst. */
    method PersistCompletion(id: string)
      modifies this
      ensures Contents() == Advance(old(Contents()), Complete(id))
    {
      if id in waits {
        Save(id, Completed, None);
      }
    }

    method RecoverPendingCallbacks(order: seq<string>, h: string -> Handling)
      modifies this
      ensures Contents() == Advance(old(Contents()), RecoveryScan(order, h))
    {
      var listed := waits;
      for i := 0 to |order|
        invariant Recover(Contents(), listed, order, order[i..], h) == Recover(old(Contents()), listed, order, order, h)
      {
        var id := order[i];
        if id in listed && RecoveryDue(listed[id]) {
          HandleMessage(order, Message(listed[id].token, listed[id].data), h(id));
          if h(id).ending.Crashed? {
            inbox := [];
            return;
          }
        }
      }
    }

    method ExpireAwaitingCallbacks(order: seq<string>, now: int, endings: string -> Ending)
      modifies this
      ensures Contents() == Advance(old(Contents()), DeadlineScan(order, now, endings))
    {
      for i := 0 to |order|
        invariant Expire(Contents(), order[i..], now, endings) == Expire(old(Contents()), order, now, endings)
      {
        var id := order[i];
        if id in waits {
          var w := waits[id];
          var due := w.deadline.Some? && w.deadline.value <= now
            && !(w.data != map[] && w.at.Some? && w.at.value <= w.deadline.value);
          if due && !endings(id).NotSaved? {
            Save(id, if endings(id).NotJournaled? then FailedClosed else TimedOut, None);
          }
        }
        if endings(id).Crashed? {
          inbox := [];
          return;
        }
      }
    }
  }
}
