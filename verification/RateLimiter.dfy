/**
 The in-memory sliding-window rate limiter: per key a queue of at most N accept times, of which
 only the oldest is ever compared, and a background purge that drops whole queues. The
 specification keeps the full history of accepts and counts.
 */
module RateLimiter {
  import opened Options

  type Queue = Option<seq<int>>

  predicate ValidQueue(q: Queue) {
    q.Some? ==> |q.value| > 0
  }

  /** What one request does to its key's queue, oldest first, and whether it is accepted. */
  function OnRequest(q: Queue, n: nat, d: int, now: int): (r: (Queue, bool))
    requires ValidQueue(q)
    ensures ValidQueue(r.0)
  {
    if q.None? then (Some([now]), true)
    else if |q.value| < n then (Some(q.value + [now]), true)
    else if now - q.value[0] >= d then (Some(q.value[1..] + [now]), true)
    else (q, false)
  }

  /** What a purge does to a queue: drop it if its newest entry is older than the expiration. */
  function OnPurge(q: Queue, e: int, now: int): (r: Queue)
    ensures ValidQueue(q) ==> ValidQueue(r)
  {
    if q.Some? && (|q.value| == 0 || now - q.value[|q.value| - 1] > e) then None else q
  }

  // ---------------------------------------------------------------- the limiter object

  class InMemoryRateLimiter {
    var store: map<string, seq<int>>
    const expiration: int

    ghost predicate Valid()
      reads this
    {
      forall key :: key in store ==> |store[key]| > 0
    }

    function QueueOf(key: string): (q: Queue)
      reads this
      ensures Valid() ==> ValidQueue(q)
    {
      if key in store then Some(store[key]) else None
    }

    constructor (expiration: int)
      ensures Valid() && this.expiration == expiration && forall key :: QueueOf(key) == None
    {
      store := map[];
      this.expiration := expiration;
    }

    method Request(key: string, maxRequestNum: nat, duration: int, now: int) returns (accepted: bool)
      requires Valid()
      modifies this
      ensures Valid()
      ensures (QueueOf(key), accepted) == OnRequest(old(QueueOf(key)), maxRequestNum, duration, now)
      ensures forall other :: other != key ==> QueueOf(other) == old(QueueOf(other))
    {
      if key in store {
        var queue := store[key];
        if |queue| < maxRequestNum {
          store := store[key := queue + [now]];
          return true;
        }
        if now - queue[0] >= duration {
          store := store[key := queue[1..] + [now]];
          return true;
        }
        return false;
      }
      store := store[key := [now]];
      return true;
    }

    /** One pass of the purge, over the keys in any order. */
    method ClearExpiredItems(now: int)
      requires Valid()
      modifies this
      ensures Valid()
      ensures forall key :: QueueOf(key) == OnPurge(old(QueueOf(key)), expiration, now)
      // What is left is exactly what was accepted within the expiration, unchanged.
      ensures forall key :: key in store <==>
        key in old(store) && now - old(store)[key][|old(store)[key]| - 1] <= expiration
      ensures forall key :: key in store ==> store[key] == old(store)[key]
    {
      var todo := store.Keys;
      while todo != {}
        invariant Valid()
        invariant forall key :: key in todo ==> QueueOf(key) == old(QueueOf(key))
        invariant forall key :: key !in todo ==> QueueOf(key) == OnPurge(old(QueueOf(key)), expiration, now)
        decreases |todo|
      {
        var key :| key in todo;
        assert QueueOf(key) == old(QueueOf(key));
        if key in store {
          var queue := store[key];
          if |queue| == 0 || now - queue[|queue| - 1] > expiration {
            store := store - {key};
          }
        }
        todo := todo - {key};
      }
      forall key ensures key in store <==> QueueOf(key).Some? {
      }
      forall key ensures key in old(store) <==> old(QueueOf(key)).Some? {
      }
    }
  }

  // ---------------------------------------------------------------- runs of one key

  datatype Event = Request(now: int) | Purge(now: int)

  predicate ClockFrom(clock: int, events: seq<Event>)
    decreases |events|
  {
    |events| == 0 || (clock <= events[0].now && ClockFrom(events[0].now, events[1..]))
  }

  /** The decisions of the limiter. */
  function Decisions(q: Queue, n: nat, d: int, e: int, events: seq<Event>): seq<bool>
    requires ValidQueue(q)
    decreases |events|
  {
    if |events| == 0 then []
    else match events[0]
      case Request(now) =>
        var (q', accepted) := OnRequest(q, n, d, now);
        [accepted] + Decisions(q', n, d, e, events[1..])
      case Purge(now) => Decisions(OnPurge(q, e, now), n, d, e, events[1..])
  }

  /** How many times lie after `bound`. */
  function Recent(history: seq<int>, bound: int): nat {
    if |history| == 0 then 0
    else Recent(history[..|history| - 1], bound) + if history[|history| - 1] > bound then 1 else 0
  }

  /** That is, the number of indices with such a time. */
  lemma {:induction false} RecentMeaning(history: seq<int>, bound: int)
    ensures Recent(history, bound) == |set i: nat | i < |history| && history[i] > bound|
  {
    var all := set i: nat | i < |history| && history[i] > bound;
    if |history| > 0 {
      var n := |history| - 1;
      RecentMeaning(history[..n], bound);
      var rest := set i: nat | i < |history[..n]| && history[..n][i] > bound;
      assert all == if history[n] > bound then rest + {n} else rest;
    }
  }

  /** The rule: accept iff fewer than n accepted requests lie within the last d seconds. */
  predicate Allows(history: seq<int>, n: nat, d: int, now: int) {
    Recent(history, now - d) < n
  }

  function RuleDecisions(history: seq<int>, n: nat, d: int, events: seq<Event>): seq<bool>
    decreases |events|
  {
    if |events| == 0 then []
    else match events[0]
      case Request(now) =>
        if Allows(history, n, d, now) then [true] + RuleDecisions(history + [now], n, d, events[1..])
        else [false] + RuleDecisions(history, n, d, events[1..])
      case Purge(_) => RuleDecisions(history, n, d, events[1..])
  }

  /** The times accepted by the rule, appended to `history`. */
  function RuleHistory(history: seq<int>, n: nat, d: int, events: seq<Event>): seq<int>
    decreases |events|
  {
    if |events| == 0 then history
    else match events[0]
      case Request(now) =>
        RuleHistory(if Allows(history, n, d, now) then history + [now] else history, n, d, events[1..])
      case Purge(_) => RuleHistory(history, n, d, events[1..])
  }

  /** The times of the requests that got `true`. */
  function AcceptedTimes(events: seq<Event>, decisions: seq<bool>): seq<int>
    decreases |events|
  {
    if |events| == 0 || |decisions| == 0 then []
    else match events[0]
      case Request(now) => (if decisions[0] then [now] else []) + AcceptedTimes(events[1..], decisions[1..])
      case Purge(_) => AcceptedTimes(events[1..], decisions)
  }

  // ---------------------------------------------------------------- the limiter follows the rule

  predicate Sorted(ts: seq<int>) {
    forall i, j :: 0 <= i < j < |ts| ==> ts[i] <= ts[j]
  }

  function Kept(q: Queue): seq<int> {
    if q.Some? then q.value else []
  }

  /** The history is what was forgotten followed by the queue, and whatever was forgotten is out
      of every window from now on. */
  predicate Represents(q: Queue, forgotten: seq<int>, n: nat, d: int, clock: int) {
    ValidQueue(q) && |Kept(q)| <= n && Sorted(forgotten + Kept(q))
    && (forall t :: t in forgotten ==> t <= clock - d)
    && (forall t :: t in forgotten + Kept(q) ==> t <= clock)
  }

  lemma {:induction false} RecentOfOld(history: seq<int>, bound: int)
    requires forall i :: 0 <= i < |history| ==> history[i] <= bound
    ensures Recent(history, bound) == 0
  {
    if |history| > 0 {
      RecentOfOld(history[..|history| - 1], bound);
    }
  }

  lemma {:induction false} RecentOfNew(history: seq<int>, bound: int)
    requires forall i :: 0 <= i < |history| ==> history[i] > bound
    ensures Recent(history, bound) == |history|
  {
    if |history| > 0 {
      RecentOfNew(history[..|history| - 1], bound);
    }
  }

  lemma {:induction false} RecentOfConcat(a: seq<int>, b: seq<int>, bound: int)
    ensures Recent(a + b, bound) == Recent(a, bound) + Recent(b, bound)
    ensures Recent(b, bound) <= |b|
  {
    if |b| == 0 {
      assert a + b == a;
    } else {
      RecentOfConcat(a, b[..|b| - 1], bound);
      assert (a + b)[..|a + b| - 1] == a + b[..|b| - 1];
    }
  }

  lemma SortedSplit(a: seq<int>, b: seq<int>)
    requires Sorted(a + b)
    ensures Sorted(b)
  {
    assert forall i :: 0 <= i < |b| ==> b[i] == (a + b)[|a| + i];
  }

  lemma SortedAppend(a: seq<int>, now: int)
    requires Sorted(a) && forall t :: t in a ==> t <= now
    ensures Sorted(a + [now])
  {
    assert forall i :: 0 <= i < |a| ==> a[i] in a;
  }

  /** Comparing the oldest kept entry decides like counting the whole history. */
  lemma SameDecision(q: Queue, forgotten: seq<int>, n: nat, d: int, clock: int, now: int)
    requires n >= 1 && clock <= now && Represents(q, forgotten, n, d, clock)
    ensures OnRequest(q, n, d, now).1 == Allows(forgotten + Kept(q), n, d, now)
  {
    var kept := Kept(q);
    assert forall i :: 0 <= i < |forgotten| ==> forgotten[i] in forgotten;
    RecentOfOld(forgotten, now - d);
    RecentOfConcat(forgotten, kept, now - d);
    if |kept| == n {
      SortedSplit(forgotten, kept);
      if now - kept[0] >= d {
        assert kept == [kept[0]] + kept[1..];
        RecentOfOld([kept[0]], now - d);
        RecentOfConcat([kept[0]], kept[1..], now - d);
      } else {
        RecentOfNew(kept, now - d);
      }
    }
  }

  /** What is forgotten once a request or a purge is done. */
  function ForgottenOnRequest(q: Queue, forgotten: seq<int>, n: nat, d: int, now: int): seq<int>
    requires ValidQueue(q)
  {
    if q.Some? && |q.value| >= n && now - q.value[0] >= d then forgotten + [q.value[0]] else forgotten
  }

  lemma RequestKeepsRepresentation(q: Queue, forgotten: seq<int>, n: nat, d: int, clock: int, now: int)
    requires n >= 1 && clock <= now && Represents(q, forgotten, n, d, clock)
    ensures var (q', accepted) := OnRequest(q, n, d, now);
      var forgotten' := ForgottenOnRequest(q, forgotten, n, d, now);
      && Represents(q', forgotten', n, d, now)
      && forgotten' + Kept(q') == if accepted then forgotten + Kept(q) + [now] else forgotten + Kept(q)
  {
    var (q', accepted) := OnRequest(q, n, d, now);
    var forgotten' := ForgottenOnRequest(q, forgotten, n, d, now);
    var history := forgotten + Kept(q);
    if accepted {
      assert forgotten' + Kept(q') == history + [now] by {
        if forgotten' != forgotten {
          assert Kept(q) == [Kept(q)[0]] + Kept(q)[1..];
        }
      }
      SortedAppend(history, now);
    }
  }

  lemma PurgeKeepsRepresentation(q: Queue, forgotten: seq<int>, n: nat, d: int, e: int, clock: int, now: int)
    requires d <= e + 1 && clock <= now && Represents(q, forgotten, n, d, clock)
    ensures var q' := OnPurge(q, e, now);
      var forgotten' := if q' == q then forgotten else forgotten + Kept(q);
      Represents(q', forgotten', n, d, now) && forgotten' + Kept(q') == forgotten + Kept(q)
  {
    if OnPurge(q, e, now) != q {
      var history := forgotten + Kept(q);
      assert history + [] == history;
      forall t | t in history ensures t <= now - d {
        var i :| 0 <= i < |history| && history[i] == t;
        assert t <= history[|history| - 1] == Kept(q)[|Kept(q)| - 1];
      }
    }
  }

  lemma {:induction false} FollowsRuleFrom(q: Queue, forgotten: seq<int>, n: nat, d: int, e: int, clock: int,
                                           events: seq<Event>)
    requires n >= 1 && d <= e + 1 && ClockFrom(clock, events) && Represents(q, forgotten, n, d, clock)
    ensures Decisions(q, n, d, e, events) == RuleDecisions(forgotten + Kept(q), n, d, events)
    decreases |events|
  {
    if |events| > 0 {
      var now := events[0].now;
      if events[0].Request? {
        SameDecision(q, forgotten, n, d, clock, now);
        RequestKeepsRepresentation(q, forgotten, n, d, clock, now);
        FollowsRuleFrom(OnRequest(q, n, d, now).0, ForgottenOnRequest(q, forgotten, n, d, now), n, d, e, now,
                        events[1..]);
      } else {
        PurgeKeepsRepresentation(q, forgotten, n, d, e, clock, now);
        var q' := OnPurge(q, e, now);
        FollowsRuleFrom(q', if q' == q then forgotten else forgotten + Kept(q), n, d, e, now, events[1..]);
      }
    }
  }

  /** On every schedule of requests and purges with a clock that never goes back, the limiter
      decides like the rule. */
  ghost predicate FollowsRule(n: nat, d: int, e: int) {
    forall start, events :: ClockFrom(start, events) ==>
      Decisions(None, n, d, e, events) == RuleDecisions([], n, d, events)
  }

  function Burst(k: nat): seq<Event> {
    if k == 0 then [] else [Request(0)] + Burst(k - 1)
  }

  function Zeros(k: nat): seq<int> {
    if k == 0 then [] else Zeros(k - 1) + [0]
  }

  lemma {:induction false} ZerosMeaning(k: nat)
    ensures |Zeros(k)| == k && forall i :: 0 <= i < k ==> Zeros(k)[i] == 0
  {
    if k > 0 {
      ZerosMeaning(k - 1);
    }
  }

  function Trues(k: nat): seq<bool> {
    if k == 0 then [] else [true] + Trues(k - 1)
  }

  lemma BurstFirst(k: nat, rest: seq<Event>)
    requires k > 0
    ensures Burst(k) + rest == [Request(0)] + (Burst(k - 1) + rest)
  {
  }

  lemma TruesFirst(k: nat, rest: seq<bool>)
    requires k > 0
    ensures Trues(k) + rest == [true] + (Trues(k - 1) + rest)
  {
  }

  function QueueOfZeros(k: nat): (q: Queue)
    ensures ValidQueue(q)
  {
    ZerosMeaning(k);
    if k == 0 then None else Some(Zeros(k))
  }

  lemma LimiterAllowsOneMore(j: nat, n: nat, d: int, e: int, rest: seq<Event>)
    requires j < n
    ensures Decisions(QueueOfZeros(j), n, d, e, [Request(0)] + rest)
      == [true] + Decisions(QueueOfZeros(j + 1), n, d, e, rest)
  {
    ZerosMeaning(j);
    assert Zeros(1) == Zeros(0) + [0] == [0];
    assert OnRequest(QueueOfZeros(j), n, d, 0) == (QueueOfZeros(j + 1), true);
    assert ([Request(0)] + rest)[1..] == rest;
  }

  /** The limiter accepts the first n requests at time 0, then comes whatever follows. */
  lemma {:induction false} BurstFills(j: nat, k: nat, n: nat, d: int, e: int, rest: seq<Event>)
    requires j + k <= n
    ensures Decisions(QueueOfZeros(j), n, d, e, Burst(k) + rest)
      == Trues(k) + Decisions(QueueOfZeros(j + k), n, d, e, rest)
    decreases k
  {
    if k == 0 {
      assert Burst(k) + rest == rest;
    } else {
      BurstFills(j + 1, k - 1, n, d, e, rest);
      LimiterAllowsOneMore(j, n, d, e, Burst(k - 1) + rest);
      BurstFirst(k, rest);
      TruesFirst(k, Decisions(QueueOfZeros(j + k), n, d, e, rest));
    }
  }

  lemma RuleAllowsOneMore(j: nat, n: nat, d: int, rest: seq<Event>)
    requires d >= 1 && j < n
    ensures RuleDecisions(Zeros(j), n, d, [Request(0)] + rest) == [true] + RuleDecisions(Zeros(j + 1), n, d, rest)
  {
    ZerosMeaning(j);
    RecentOfNew(Zeros(j), 0 - d);
    assert ([Request(0)] + rest)[1..] == rest;
  }

  lemma {:induction false} RuleAllowsBurst(j: nat, k: nat, n: nat, d: int, rest: seq<Event>)
    requires d >= 1 && j + k <= n
    ensures RuleDecisions(Zeros(j), n, d, Burst(k) + rest) == Trues(k) + RuleDecisions(Zeros(j + k), n, d, rest)
    decreases k
  {
    if k == 0 {
      assert Burst(k) + rest == rest;
    } else {
      RuleAllowsBurst(j + 1, k - 1, n, d, rest);
      RuleAllowsOneMore(j, n, d, Burst(k - 1) + rest);
      BurstFirst(k, rest);
      TruesFirst(k, RuleDecisions(Zeros(j + k), n, d, rest));
    }
  }

  lemma {:induction false} BurstClock(k: nat, rest: seq<Event>)
    requires ClockFrom(0, rest)
    ensures ClockFrom(0, Burst(k) + rest)
  {
    if k == 0 {
      assert Burst(k) + rest == rest;
    } else {
      BurstClock(k - 1, rest);
      assert (Burst(k) + rest)[1..] == Burst(k - 1) + rest;
    }
  }

  /** With n accepts at time 0, a purge and a request right after the expiration: the limiter has
      forgotten the accepts, the rule still counts them. */
  lemma PurgedTooEarly(n: nat, d: int, e: nat)
    requires n >= 1 && d > e + 1
    ensures var rest := [Purge(e + 1), Request(e + 1)];
      Decisions(QueueOfZeros(n), n, d, e, rest) == [true] && RuleDecisions(Zeros(n), n, d, rest) == [false]
  {
    var rest := [Purge(e + 1), Request(e + 1)];
    assert rest[1..] == [Request(e + 1)];
    ZerosMeaning(n);
    RecentOfNew(Zeros(n), e + 1 - d);
    assert OnPurge(QueueOfZeros(n), e, e + 1) == None;
    assert [Request(e + 1)][1..] == [];
    assert Decisions(None, n, d, e, [Request(e + 1)]) == [true];
    assert RuleDecisions(Zeros(n), n, d, [Request(e + 1)]) == [false];
  }

  /** A window longer than that breaks the rule. */
  lemma LongWindowBreaksRule(n: nat, d: int, e: nat)
    requires n >= 1 && d > e + 1
    ensures !FollowsRule(n, d, e)
  {
    var rest := [Purge(e + 1), Request(e + 1)];
    PurgedTooEarly(n, d, e);
    BurstFills(0, n, n, d, e, rest);
    RuleAllowsBurst(0, n, n, d, rest);
    var events := Burst(n) + rest;
    assert ClockFrom(0, events) by {
      assert rest[1..] == [Request(e + 1)];
      BurstClock(n, rest);
    }
    assert Decisions(None, n, d, e, events)[|Trues(n)|] != RuleDecisions([], n, d, events)[|Trues(n)|];
  }

  lemma ZeroLimitBreaksRule(d: int, e: nat)
    ensures !FollowsRule(0, d, e)
  {
    var events := [Request(0)];
    assert events[1..] == [];
    assert ClockFrom(0, events);
    assert Decisions(None, 0, d, e, events)[0] && !RuleDecisions([], 0, d, events)[0];
  }

  /** The limiter agrees with the full-history rule on every schedule if and only if the limit is
      at least 1 and the window is at most one second longer than the expiration. */
  lemma LimiterFollowsRule(n: nat, d: int, e: nat)
    ensures FollowsRule(n, d, e) <==> n >= 1 && d <= e + 1
  {
    if n >= 1 && d <= e + 1 {
      forall start, events | ClockFrom(start, events)
        ensures Decisions(None, n, d, e, events) == RuleDecisions([], n, d, events)
      {
        FollowsRuleFrom(None, [], n, d, e, start, events);
      }
    } else if n == 0 {
      ZeroLimitBreaksRule(d, e);
    } else {
      LongWindowBreaksRule(n, d, e);
    }
  }

  // ---------------------------------------------------------------- the quota holds

  lemma {:induction false} RuleHistoryIsAccepted(history: seq<int>, n: nat, d: int, events: seq<Event>)
    ensures RuleHistory(history, n, d, events) == history + AcceptedTimes(events, RuleDecisions(history, n, d, events))
    decreases |events|
  {
    if |events| > 0 {
      if events[0].Request? {
        var now := events[0].now;
        var rest := RuleDecisions(history, n, d, events)[1..];
        if Allows(history, n, d, now) {
          RuleHistoryIsAccepted(history + [now], n, d, events[1..]);
          assert rest == RuleDecisions(history + [now], n, d, events[1..]);
        } else {
          RuleHistoryIsAccepted(history, n, d, events[1..]);
          assert rest == RuleDecisions(history, n, d, events[1..]);
        }
      } else {
        RuleHistoryIsAccepted(history, n, d, events[1..]);
      }
    }
  }

  /** Accepts n apart are at least d seconds apart. */
  predicate Spaced(history: seq<int>, n: nat, d: int) {
    forall i, j :: 0 <= i && i + n <= j < |history| ==> history[j] - history[i] >= d
  }

  /** An accept finds the n-th accept before it outside the window. */
  lemma OldEnough(history: seq<int>, n: nat, d: int, now: int, i: nat)
    requires Sorted(history) && Allows(history, n, d, now) && i + n <= |history|
    ensures i < |history| && now - history[i] >= d
  {
    var tail := history[i..];
    assert history == history[..i] + tail;
    RecentOfConcat(history[..i], tail, now - d);
    if i == |history| || history[i] > now - d {
      RecentOfNew(tail, now - d);
      assert false;
    }
  }

  lemma AcceptKeepsSpacing(history: seq<int>, n: nat, d: int, now: int)
    requires Sorted(history) && Spaced(history, n, d) && Allows(history, n, d, now)
    requires forall i :: 0 <= i < |history| ==> history[i] <= now
    ensures Sorted(history + [now]) && Spaced(history + [now], n, d)
  {
    forall i | 0 <= i && i + n <= |history| ensures i < |history| && now - history[i] >= d {
      OldEnough(history, n, d, now, i);
    }
  }

  lemma {:induction false} RuleHistoryIsSpaced(history: seq<int>, n: nat, d: int, clock: int, events: seq<Event>)
    requires ClockFrom(clock, events) && Sorted(history) && Spaced(history, n, d)
    requires forall i :: 0 <= i < |history| ==> history[i] <= clock
    ensures Sorted(RuleHistory(history, n, d, events)) && Spaced(RuleHistory(history, n, d, events), n, d)
    decreases |events|
  {
    if |events| > 0 {
      var now := events[0].now;
      if events[0].Request? && Allows(history, n, d, now) {
        AcceptKeepsSpacing(history, n, d, now);
        RuleHistoryIsSpaced(history + [now], n, d, now, events[1..]);
      } else {
        RuleHistoryIsSpaced(history, n, d, now, events[1..]);
      }
    }
  }

  function Interval(lo: int, size: nat): set<int> {
    if size == 0 then {} else Interval(lo, size - 1) + {lo + size - 1}
  }

  lemma {:induction false} IntervalMeaning(lo: int, size: nat)
    ensures |Interval(lo, size)| == size && forall i :: i in Interval(lo, size) <==> lo <= i < lo + size
  {
    if size > 0 {
      IntervalMeaning(lo, size - 1);
    }
  }

  lemma SubsetSize(a: set<int>, b: set<int>)
    requires a <= b
    ensures |a| <= |b|
  {
    assert b == a + (b - a);
  }

  /** The accepts of the window [from, from + d), by index. */
  function InWindow(times: seq<int>, from: int, d: int): set<int> {
    set i | 0 <= i < |times| && from <= times[i] < from + d
  }

  lemma SpacedMeansFewPerWindow(times: seq<int>, n: nat, d: int, from: int)
    requires n >= 1 && Sorted(times) && Spaced(times, n, d)
    ensures |InWindow(times, from, d)| <= n
  {
    var w := InWindow(times, from, d);
    if w != {} {
      var first := 0;
      while times[first] < from
        invariant 0 <= first < |times| && forall i :: 0 <= i < first ==> times[i] < from
        invariant exists i :: i in w && first <= i
        decreases |times| - first
      {
        var i :| i in w && first <= i;
        assert i != first;
        first := first + 1;
      }
      IntervalMeaning(first, n);
      assert w <= Interval(first, n);
      SubsetSize(w, Interval(first, n));
    }
  }

  /** Hence no window of length d, wherever it starts, ever holds more than n accepted requests. */
  lemma QuotaHolds(n: nat, d: int, e: nat, start: int, events: seq<Event>, from: int)
    requires n >= 1 && d <= e + 1 && ClockFrom(start, events)
    ensures |InWindow(AcceptedTimes(events, Decisions(None, n, d, e, events)), from, d)| <= n
  {
    FollowsRuleFrom(None, [], n, d, e, start, events);
    RuleHistoryIsAccepted([], n, d, events);
    RuleHistoryIsSpaced([], n, d, start, events);
    var times := AcceptedTimes(events, Decisions(None, n, d, e, events));
    assert times == RuleHistory([], n, d, events);
    SpacedMeansFewPerWindow(times, n, d, from);
  }
}
