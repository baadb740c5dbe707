/** The API's fixed-window rate limiter, and what its windows mean for a sliding interval. */
module RateLimiter {

  /** Hits of one key since its window started. */
  datatype Bucket = Bucket(start: int, hits: int)

  type Buckets = map<string, Bucket>

  datatype Request = Request(key: string, at: int)

  function KeyOf(key: string): string
  {
    if key == "" then "anon" else key
  }

  /** acquireRL: whether the request is admitted, and the buckets after it. */
  function Acquire(window: int, limit: int, buckets: Buckets, r: Request): (bool, Buckets)
  {
    var key := KeyOf(r.key);
    if key !in buckets || r.at - buckets[key].start >= window then (true, buckets[key := Bucket(r.at, 1)])
    else if buckets[key].hits >= limit then (false, buckets)
    else (true, buckets[key := buckets[key].(hits := buckets[key].hits + 1)])
  }

  class Limiter {
    const window: int
    const limit: int
    var buckets: Buckets

    constructor (window: int, limit: int)
      ensures this.window == window && this.limit == limit && buckets == map[]
    {
      this.window, this.limit, buckets := window, limit, map[];
    }

    method AcquireRL(key: string, now: int) returns (ok: bool)
      modifies this`buckets
      ensures (ok, buckets) == Acquire(window, limit, old(buckets), Request(key, now))
    {
      var k := key;
      if k == "" {
        k := "anon";
      }
      if k !in buckets || now - buckets[k].start >= window {
        buckets := buckets[k := Bucket(now, 1)];
        return true;
      }
      if buckets[k].hits >= limit {
        return false;
      }
      buckets := buckets[k := Bucket(buckets[k].start, buckets[k].hits + 1)];
      return true;
    }
  }

  // ---------- histories ----------

  function BucketsAfter(window: int, limit: int, history: seq<Request>): Buckets
  {
    if history == [] then map[]
    else Acquire(window, limit, BucketsAfter(window, limit, history[..|history| - 1]), history[|history| - 1]).1
  }

  /** Is request r admitted after the history? */
  predicate Admits(window: int, limit: int, history: seq<Request>, r: Request)
  {
    Acquire(window, limit, BucketsAfter(window, limit, history), r).0
  }

  /** Requests of a key admitted at a time in [from, to). */
  function Admitted(window: int, limit: int, history: seq<Request>, key: string, from: int, to: int): nat
  {
    if history == [] then 0
    else
      var before, r := history[..|history| - 1], history[|history| - 1];
      Admitted(window, limit, before, key, from, to)
      + if KeyOf(r.key) == key && from <= r.at < to && Admits(window, limit, before, r) then 1 else 0
  }

  ghost predicate Ordered(history: seq<Request>)
  {
    forall i, j | 0 <= i < j < |history| :: history[i].at <= history[j].at
  }

  function Most(limit: int): nat
  {
    if limit < 1 then 1 else limit
  }

  /** While the interval is still open, what it counts is bounded by the key's window: its hits,
      plus at most one hit less than a full window before it. */
  ghost predicate CountInv(window: int, limit: int, history: seq<Request>, key: string, from: int)
  {
    var count := Admitted(window, limit, history, key, from, from + window);
    var buckets := BucketsAfter(window, limit, history);
    && count <= 2 * Most(limit) - 1
    && (count > 0 ==> history[|history| - 1].at >= from)
    && (if key in buckets then
          var b := buckets[key];
          && 1 <= b.hits <= Most(limit) && b.start <= history[|history| - 1].at
          && (history[|history| - 1].at < from + window ==>
                count <= b.hits - 1 + (if b.start < from then 0 else Most(limit)))
        else count == 0)
  }

  lemma {:induction false} CountStaysBounded(window: int, limit: int, history: seq<Request>, key: string, from: int)
    requires Ordered(history)
    ensures history != [] ==> CountInv(window, limit, history, key, from)
  {
    if |history| > 1 {
      CountStaysBounded(window, limit, history[..|history| - 1], key, from);
    } else if |history| == 1 {
      assert history[..0] == [];
    }
  }

  /** On a non-decreasing clock, any half-open interval of one window's length admits fewer than
      twice the limit, for every key and every history. */
  lemma SlidingIntervalBound(window: int, limit: int, history: seq<Request>, key: string, from: int)
    requires Ordered(history)
    ensures Admitted(window, limit, history, key, from, from + window) <= 2 * Most(limit) - 1
  {
    CountStaysBounded(window, limit, history, key, from);
  }

  /** What one more request changes. */
  lemma OneMore(window: int, limit: int, history: seq<Request>, r: Request, key: string, from: int, to: int)
    ensures BucketsAfter(window, limit, history + [r]) == Acquire(window, limit,
        BucketsAfter(window, limit, history), r).1
    ensures Admitted(window, limit, history + [r], key, from, to)
         == Admitted(window, limit, history, key, from, to)
            + if KeyOf(r.key) == key && from <= r.at < to && Admits(window, limit, history, r) then 1 else 0
  {
    assert (history + [r])[..|history|] == history;
  }

  /** The same request several times over. */
  function Times(r: Request, n: nat): seq<Request>
  {
    if n == 0 then [] else Times(r, n - 1) + [r]
  }

  /** Where a key stands after a history: its bucket, and how many requests of the interval were admitted. */
  ghost predicate Stands(window: int, limit: int, history: seq<Request>, key: string, from: int, to: int, b: Bucket,
      count: nat)
  {
    && key in BucketsAfter(window, limit, history) && BucketsAfter(window, limit, history)[key] == b
    && Admitted(window, limit, history, key, from, to) == count
  }

  /** A request that its key's current window still admits. */
  lemma OneWithinWindow(window: int, limit: int, history: seq<Request>, r: Request, from: int, to: int, b: Bucket,
      count: nat)
    requires Stands(window, limit, history, KeyOf(r.key), from, to, b, count) && from <= r.at < to
    requires r.at - b.start < window && b.hits < limit
    ensures Stands(window, limit, history + [r], KeyOf(r.key), from, to, b.(hits := b.hits + 1), count + 1)
  {
    OneMore(window, limit, history, r, KeyOf(r.key), from, to);
  }

  /** As many requests as the window still admits. */
  lemma {:induction false} WithinWindow(window: int, limit: int, history: seq<Request>, r: Request, n: nat,
      from: int, to: int, b: Bucket, count: nat)
    requires Stands(window, limit, history, KeyOf(r.key), from, to, b, count) && from <= r.at < to
    requires r.at - b.start < window && b.hits + n <= limit
    ensures Stands(window, limit, history + Times(r, n), KeyOf(r.key), from, to, b.(hits := b.hits + n), count + n)
  {
    if n == 0 {
      assert history + Times(r, 0) == history;
    } else {
      var before := history + Times(r, n - 1);
      assert history + Times(r, n) == before + [r];
      WithinWindow(window, limit, history, r, n - 1, from, to, b, count);
      OneWithinWindow(window, limit, before, r, from, to, b.(hits := b.hits + n - 1), count + n - 1);
    }
  }

  /** A request that opens a window of its key. */
  lemma Opening(window: int, limit: int, history: seq<Request>, r: Request, from: int, to: int)
    requires var buckets := BucketsAfter(window, limit, history);
      KeyOf(r.key) !in buckets || r.at - buckets[KeyOf(r.key)].start >= window
    ensures Stands(window, limit, history + [r], KeyOf(r.key), from, to, Bucket(r.at, 1),
                   Admitted(window, limit, history, KeyOf(r.key), from, to) + if from <= r.at < to then 1 else 0)
  {
    OneMore(window, limit, history, r, KeyOf(r.key), from, to);
  }

  /** A window opened by one request and filled by later ones, and a second window after it. */
  function TwoWindows(window: int, limit: nat, key: string): seq<Request>
    requires limit >= 1
  {
    FirstWindow(window, limit, key) + [Request(key, window)] + Times(Request(key, window), limit - 1)
  }

  function FirstWindow(window: int, limit: nat, key: string): seq<Request>
    requires limit >= 1
  {
    [Request(key, 0)] + Times(Request(key, 1), limit - 1)
  }

  lemma FirstOpens(window: int, limit: nat, key: string)
    requires window >= 2 && KeyOf(key) == key
    ensures Stands(window, limit, [Request(key, 0)], key, 1, 1 + window, Bucket(0, 1), 0)
  {
    Opening(window, limit, [], Request(key, 0), 1, 1 + window);
    assert [] + [Request(key, 0)] == [Request(key, 0)];
  }

  /** The first window opens just before the interval, and all but its first request are inside. */
  lemma FirstIsInside(window: int, limit: nat, key: string)
    requires limit >= 1 && window >= 2 && KeyOf(key) == key
    ensures Stands(window, limit, FirstWindow(window, limit, key), key, 1, 1 + window, Bucket(0, limit), limit - 1)
  {
    FirstOpens(window, limit, key);
    WithinWindow(window, limit, [Request(key, 0)], Request(key, 1), limit - 1, 1, 1 + window, Bucket(0, 1), 0);
  }

  lemma SecondOpens(window: int, limit: nat, key: string)
    requires limit >= 1 && window >= 2 && KeyOf(key) == key
    ensures Stands(window, limit, FirstWindow(window, limit, key) + [Request(key, window)], key, 1, 1 + window,
                   Bucket(window, 1), limit)
  {
    FirstIsInside(window, limit, key);
    Opening(window, limit, FirstWindow(window, limit, key), Request(key, window), 1, 1 + window);
  }

  lemma {:induction false} TimesAre(r: Request, n: nat)
    ensures |Times(r, n)| == n && forall i | 0 <= i < n :: Times(r, n)[i] == r
  {
    if n > 0 {
      TimesAre(r, n - 1);
    }
  }

  lemma OrderedJoin(a: seq<Request>, b: seq<Request>, at: int)
    requires Ordered(a) && Ordered(b)
    requires (forall i | 0 <= i < |a| :: a[i].at <= at) && (forall i | 0 <= i < |b| :: b[i].at >= at)
    ensures Ordered(a + b)
  {
  }

  lemma WindowIsOrdered(r: Request, later: Request, n: nat)
    requires r.at <= later.at
    ensures Ordered([r] + Times(later, n)) && forall x <- [r] + Times(later, n) :: r.at <= x.at <= later.at
  {
    TimesAre(later, n);
  }

  /** That history is one of a non-decreasing clock. */
  lemma TwoWindowsAreOrdered(window: int, limit: nat, key: string)
    requires limit >= 1 && window >= 2
    ensures Ordered(TwoWindows(window, limit, key))
  {
    var r := Request(key, window);
    WindowIsOrdered(Request(key, 0), Request(key, 1), limit - 1);
    WindowIsOrdered(r, r, limit - 1);
    OrderedJoin(FirstWindow(window, limit, key), [r] + Times(r, limit - 1), 1);
    assert FirstWindow(window, limit, key) + ([r] + Times(r, limit - 1)) == TwoWindows(window, limit, key);
  }

  /** The bound is reached on a non-decreasing clock, for every limit, every window longer than a tick and
      every key. */
  lemma BoundIsReached(window: int, limit: nat, key: string)
    requires limit >= 1 && window >= 2 && KeyOf(key) == key
    ensures Admitted(window, limit, TwoWindows(window, limit, key), key, 1, 1 + window) == 2 * Most(limit) - 1
    ensures Ordered(TwoWindows(window, limit, key))
  {
    TwoWindowsAreOrdered(window, limit, key);
    var second := FirstWindow(window, limit, key) + [Request(key, window)];
    SecondOpens(window, limit, key);
    WithinWindow(window, limit, second, Request(key, window), limit - 1, 1, 1 + window, Bucket(window, 1), limit);
  }

  // ---------- what a refusal leaves, and when a request must be admitted ----------

  /** A refused request changes no later answer, whatever follows it. */
  lemma {:induction false} RefusalChangesNothing(window: int, limit: int, history: seq<Request>, refused: Request,
      more: seq<Request>, r: Request)
    requires !Admits(window, limit, history, refused)
    ensures Admits(window, limit, history + [refused] + more, r) <==> Admits(window, limit, history + more, r)
  {
    SameBuckets(window, limit, history, refused, more);
  }

  lemma {:induction false} SameBuckets(window: int, limit: int, history: seq<Request>, refused: Request,
      more: seq<Request>)
    requires !Admits(window, limit, history, refused)
    ensures BucketsAfter(window, limit, history + [refused] + more) == BucketsAfter(window, limit, history + more)
  {
    if more == [] {
      assert (history + [refused])[..|history|] == history;
      assert history + [refused] + more == history + [refused] && history + more == history;
    } else {
      var last := |more| - 1;
      var a, b := history + [refused] + more[..last], history + more[..last];
      SameBuckets(window, limit, history, refused, more[..last]);
      assert history + [refused] + more == a + [more[last]] && history + more == b + [more[last]];
      OneMoreBucket(window, limit, a, more[last]);
      OneMoreBucket(window, limit, b, more[last]);
    }
  }

  lemma OneMoreBucket(window: int, limit: int, history: seq<Request>, r: Request)
    ensures BucketsAfter(window, limit, history + [r])
         == Acquire(window, limit, BucketsAfter(window, limit, history), r).1
  {
    assert (history + [r])[..|history|] == history;
  }

  /** The i-th request is one of this key, and was admitted. */
  predicate AdmittedAt(window: int, limit: int, history: seq<Request>, key: string, i: nat)
    requires i < |history|
  {
    KeyOf(history[i].key) == key && Admits(window, limit, history[..i], history[i])
  }

  /** A key's window began with an admitted request. */
  lemma {:induction false} WindowBegan(window: int, limit: int, history: seq<Request>, key: string) returns (i: nat)
    requires key in BucketsAfter(window, limit, history)
    ensures i < |history| && AdmittedAt(window, limit, history, key, i)
    ensures history[i].at == BucketsAfter(window, limit, history)[key].start
  {
    var last := |history| - 1;
    var before, r := history[..last], history[last];
    var buckets := BucketsAfter(window, limit, before);
    if KeyOf(r.key) == key && (key !in buckets || r.at - buckets[key].start >= window) {
      i := last;
    } else {
      i := WindowBegan(window, limit, before, key);
      assert history[..i] == before[..i];
    }
  }

  /** A request that comes a window or more after each admitted one of its key is admitted: nobody is
      locked out, however many requests of the key were refused. */
  lemma LaterIsAdmitted(window: int, limit: int, history: seq<Request>, r: Request)
    requires forall i: nat | i < |history| && AdmittedAt(window, limit, history, KeyOf(r.key), i) ::
      r.at - history[i].at >= window
    ensures Admits(window, limit, history, r)
  {
    if KeyOf(r.key) in BucketsAfter(window, limit, history) {
      var i := WindowBegan(window, limit, history, KeyOf(r.key));
    }
  }

  /** The hits of a key's window are requests admitted since it began. */
  lemma {:induction false} HitsWereAdmitted(window: int, limit: int, history: seq<Request>, key: string, from: int,
      to: int)
    requires Ordered(history) && key in BucketsAfter(window, limit, history)
    requires from <= BucketsAfter(window, limit, history)[key].start && forall r <- history :: r.at < to
    ensures Admitted(window, limit, history, key, from, to) >= BucketsAfter(window, limit, history)[key].hits
    ensures BucketsAfter(window, limit, history)[key].start <= history[|history| - 1].at
  {
    var last := |history| - 1;
    var before, r := history[..last], history[last];
    assert forall x <- before :: x in history;
    var buckets := BucketsAfter(window, limit, before);
    if key in buckets && from <= buckets[key].start {
      HitsWereAdmitted(window, limit, before, key, from, to);
    } else if key in buckets {
      assert KeyOf(r.key) == key;
    }
  }

  /** A request is refused only where as many of its key as the limit were admitted within the window. */
  lemma RefusalIsEarned(window: int, limit: int, history: seq<Request>, r: Request)
    requires Ordered(history + [r]) && !Admits(window, limit, history, r)
    ensures Admitted(window, limit, history, KeyOf(r.key), r.at - window + 1, r.at + 1) >= Most(limit)
  {
    assert forall i | 0 <= i < |history| :: (history + [r])[i] == history[i];
    assert (history + [r])[|history|] == r;
    HitsWereAdmitted(window, limit, history, KeyOf(r.key), r.at - window + 1, r.at + 1);
    HitsAreSome(window, limit, history, KeyOf(r.key));
  }

  lemma {:induction false} HitsAreSome(window: int, limit: int, history: seq<Request>, key: string)
    requires key in BucketsAfter(window, limit, history)
    ensures BucketsAfter(window, limit, history)[key].hits >= 1
  {
    var before := history[..|history| - 1];
    if key in BucketsAfter(window, limit, before) {
      HitsAreSome(window, limit, before, key);
    }
  }

  // ---------- keys do not disturb each other ----------

  function OfKey(history: seq<Request>, key: string): seq<Request>
  {
    if history == [] then []
    else
      var r := history[|history| - 1];
      OfKey(history[..|history| - 1], key) + if KeyOf(r.key) == key then [r] else []
  }

  lemma {:induction false} BucketDependsOnKeyOnly(window: int, limit: int, history: seq<Request>, key: string)
    ensures var all, own := BucketsAfter(window, limit, history), BucketsAfter(window, limit, OfKey(history, key));
      (key in all <==> key in own) && (key in all ==> all[key] == own[key])
  {
    if history != [] {
      var before, r := history[..|history| - 1], history[|history| - 1];
      BucketDependsOnKeyOnly(window, limit, before, key);
      if KeyOf(r.key) == key {
        assert OfKey(history, key)[..|OfKey(before, key)|] == OfKey(before, key);
      } else {
        assert OfKey(history, key) == OfKey(before, key);
      }
    }
  }

  /** A request's answer is the one it would get had only its own key's requests been made. */
  lemma OtherKeysDoNotMatter(window: int, limit: int, history: seq<Request>, r: Request)
    ensures Admits(window, limit, history, r) <==> Admits(window, limit, OfKey(history, KeyOf(r.key)), r)
  {
    BucketDependsOnKeyOnly(window, limit, history, KeyOf(r.key));
  }
}
