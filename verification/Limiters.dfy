/** The sliding-window limiters: thread restarts per hour and requests per address and minute. */
module Limiters {
  const MAX_THREAD_RESTARTS := 10
  const RESTART_WINDOW := 3600.0
  const REQUESTS_PER_MINUTE := 120
  const REQUEST_WINDOW := 60.0
  const CLEANUP_INTERVAL := 300.0
  const IDLE_LIMIT := 120.0

  /** One granted restart or request. */
  datatype Grant = Grant(name: string, at: real)

  /** The times within the window before now. */
  function Recent(times: seq<real>, now: real, window: real): (r: seq<real>)
    ensures |r| <= |times|
  {
    if times == [] then [] else
    var n := |times| - 1;
    var rest := Recent(times[..n], now, window);
    if now - times[n] < window then rest + [times[n]] else rest
  }

  /** The times of all grants to one name. */
  function Times(history: seq<Grant>, name: string): seq<real> {
    if history == [] then [] else
    var n := |history| - 1;
    var rest := Times(history[..n], name);
    if history[n].name == name then rest + [history[n].at] else rest
  }

  /** How many of the times fall in [from, to). */
  function CountIn(times: seq<real>, from: real, to: real): nat {
    if times == [] then 0 else
    var n := |times| - 1;
    CountIn(times[..n], from, to) + if from <= times[n] < to then 1 else 0
  }

  /** Each grant found fewer than cap grants to its name in the window before it, over the full history. */
  predicate Granted(history: seq<Grant>, cap: nat, window: real) {
    forall i :: 0 <= i < |history| ==> Allowed(history[..i], history[i], cap, window)
  }

  predicate Allowed(before: seq<Grant>, grant: Grant, cap: nat, window: real) {
    |Recent(Times(before, grant.name), grant.at, window)| < cap
  }

  lemma {:induction false} WindowIsRecent(times: seq<real>, from: real, now: real, window: real)
    requires from <= now < from + window
    ensures CountIn(times, from, from + window) <= |Recent(times, now, window)|
  {
    if times != [] {
      WindowIsRecent(times[..|times| - 1], from, now, window);
    }
  }

  lemma CountGrows(times: seq<real>, at: real, from: real, to: real)
    ensures CountIn(times + [at], from, to) == CountIn(times, from, to) + if from <= at < to then 1 else 0
  {
    assert (times + [at])[..|times|] == times;
  }

  /** No window of the given length, wherever it starts, holds more than cap grants to a name. */
  lemma {:induction false} AtMostCapPerWindow(history: seq<Grant>, cap: nat, window: real, name: string, from: real)
    requires Granted(history, cap, window)
    ensures CountIn(Times(history, name), from, from + window) <= cap
  {
    if history != [] {
      var n := |history| - 1;
      var before, grant := history[..n], history[n];
      GrantedBefore(history, cap, window);
      AtMostCapPerWindow(before, cap, window, name, from);
      if grant.name == name {
        var times := Times(before, name);
        CountGrows(times, grant.at, from, from + window);
        if from <= grant.at < from + window {
          WindowIsRecent(times, from, grant.at, window);
        }
      }
    }
  }

  lemma GrantedBefore(history: seq<Grant>, cap: nat, window: real)
    requires Granted(history, cap, window) && history != []
    ensures var n := |history| - 1;
            Granted(history[..n], cap, window) && Allowed(history[..n], history[n], cap, window)
  {
    var before := history[..|history| - 1];
    forall i | 0 <= i < |before|
      ensures Allowed(before[..i], before[i], cap, window)
    {
      assert before[..i] == history[..i];
    }
  }

  lemma GrantedGrows(history: seq<Grant>, grant: Grant, cap: nat, window: real)
    requires Granted(history, cap, window) && Allowed(history, grant, cap, window)
    ensures Granted(history + [grant], cap, window)
  {
    var all := history + [grant];
    forall i | 0 <= i < |all|
      ensures Allowed(all[..i], all[i], cap, window)
    {
      if i < |history| {
        assert all[..i] == history[..i];
      } else {
        assert all[..i] == history;
      }
    }
  }

  // ---- the pruned list against the full history ----

  predicate SortedUpTo(times: seq<real>, top: real) {
    && (forall i, j :: 0 <= i < j < |times| ==> times[i] <= times[j])
    && (forall i :: 0 <= i < |times| ==> times[i] <= top)
  }

  /** From now on, the kept times and all the times have the same recent part. */
  ghost predicate Faithful(kept: seq<real>, times: seq<real>, now: real, window: real) {
    && (forall t :: t >= now ==> Recent(kept, t, window) == Recent(times, t, window))
    && SortedUpTo(kept, now)
  }

  lemma RecentGrows(times: seq<real>, at: real, now: real, window: real)
    ensures var r := Recent(times, now, window);
            Recent(times + [at], now, window) == if now - at < window then r + [at] else r
  {
    assert (times + [at])[..|times|] == times;
  }

  /** Pruning at one time loses nothing that a later time would count. */
  lemma {:induction false} PrunedAgain(times: seq<real>, now: real, later: real, window: real)
    requires now <= later
    ensures Recent(Recent(times, now, window), later, window) == Recent(times, later, window)
  {
    if times != [] {
      var n := |times| - 1;
      PrunedAgain(times[..n], now, later, window);
      if now - times[n] < window {
        RecentGrows(Recent(times[..n], now, window), times[n], later, window);
      }
    }
  }

  lemma {:induction false} RecentIsSorted(times: seq<real>, now: real, window: real, top: real)
    requires SortedUpTo(times, top)
    ensures SortedUpTo(Recent(times, now, window), top)
  {
    if times != [] {
      var n := |times| - 1;
      RecentIsSorted(times[..n], now, window, times[n]);
    }
  }

  lemma PruneIsFaithful(kept: seq<real>, times: seq<real>, was: real, now: real, window: real)
    requires Faithful(kept, times, was, window) && was <= now
    ensures Faithful(Recent(kept, now, window), times, now, window)
    ensures Recent(kept, now, window) == Recent(times, now, window)
  {
    forall t | t >= now
      ensures Recent(Recent(kept, now, window), t, window) == Recent(times, t, window)
    {
      PrunedAgain(kept, now, t, window);
    }
    RecentIsSorted(kept, now, window, now);
  }

  lemma GrantIsFaithful(kept: seq<real>, times: seq<real>, now: real, window: real)
    requires Faithful(kept, times, now, window)
    ensures Faithful(kept + [now], times + [now], now, window)
  {
  }

  lemma LaterIsFaithful(kept: seq<real>, times: seq<real>, was: real, now: real, window: real)
    requires Faithful(kept, times, was, window) && was <= now
    ensures Faithful(kept, times, now, window)
  {
  }

  lemma {:induction false} OldIsNotRecent(times: seq<real>, now: real, window: real)
    requires forall i :: 0 <= i < |times| ==> now - times[i] >= window
    ensures Recent(times, now, window) == []
  {
    if times != [] {
      OldIsNotRecent(times[..|times| - 1], now, window);
    }
  }

  /** An empty or idle list may be dropped. */
  lemma DropIsFaithful(kept: seq<real>, times: seq<real>, now: real, window: real)
    requires Faithful(kept, times, now, window)
    requires kept == [] || now - kept[|kept| - 1] >= window
    ensures Faithful([], times, now, window)
  {
    forall t | t >= now
      ensures Recent([], t, window) == Recent(times, t, window)
    {
      OldIsNotRecent(kept, t, window);
    }
  }

  lemma TimesGrow(history: seq<Grant>, grant: Grant, name: string)
    ensures var r := Times(history, name);
            Times(history + [grant], name) == if grant.name == name then r + [grant.at] else r
  {
    assert (history + [grant])[..|history|] == history;
  }

  function Kept(lists: map<string, seq<real>>, name: string): seq<real> {
    if name in lists then lists[name] else []
  }

  /** The lists know the recent part of every name's history. */
  ghost predicate Knows(lists: map<string, seq<real>>, history: seq<Grant>, now: real, window: real) {
    forall name :: Faithful(Kept(lists, name), Times(history, name), now, window)
  }

  lemma KnowsAfterPrune(lists: map<string, seq<real>>, history: seq<Grant>, was: real, now: real, window: real, name: string)
    requires Knows(lists, history, was, window) && was <= now
    ensures Knows(lists[name := Recent(Kept(lists, name), now, window)], history, now, window)
    ensures Recent(Kept(lists, name), now, window) == Recent(Times(history, name), now, window)
  {
    forall other
      ensures Faithful(Kept(lists[name := Recent(Kept(lists, name), now, window)], other), Times(history, other), now, window)
    {
      if other == name {
        PruneIsFaithful(Kept(lists, name), Times(history, name), was, now, window);
      } else {
        LaterIsFaithful(Kept(lists, other), Times(history, other), was, now, window);
      }
    }
    PruneIsFaithful(Kept(lists, name), Times(history, name), was, now, window);
  }

  lemma KnowsAfterGrant(lists: map<string, seq<real>>, history: seq<Grant>, now: real, window: real, name: string)
    requires Knows(lists, history, now, window)
    ensures Knows(lists[name := Kept(lists, name) + [now]], history + [Grant(name, now)], now, window)
  {
    forall other
      ensures Faithful(Kept(lists[name := Kept(lists, name) + [now]], other), Times(history + [Grant(name, now)], other), now, window)
    {
      FaithfulAfterGrant(lists, history, now, window, name, other);
    }
  }

  lemma FaithfulAfterGrant(lists: map<string, seq<real>>, history: seq<Grant>, now: real, window: real, name: string, other: string)
    requires Faithful(Kept(lists, other), Times(history, other), now, window)
    ensures Faithful(Kept(lists[name := Kept(lists, name) + [now]], other), Times(history + [Grant(name, now)], other), now, window)
  {
    TimesGrow(history, Grant(name, now), other);
    if other == name {
      GrantIsFaithful(Kept(lists, name), Times(history, name), now, window);
    }
  }

  // ---- what the code does at one attempt ----

  /** Prune, then grant unless the cap is reached. */
  function Attempt(kept: seq<real>, now: real, cap: nat, window: real): (seq<real>, bool) {
    var recent := Recent(kept, now, window);
    if |recent| >= cap then (recent, false) else (recent + [now], true)
  }

  function RestartStep(restarts: map<string, seq<real>>, name: string, now: real): (map<string, seq<real>>, bool) {
    var (kept, ok) := Attempt(Kept(restarts, name), now, MAX_THREAD_RESTARTS, RESTART_WINDOW);
    (restarts[name := kept], ok)
  }

  predicate IsIdle(bucket: seq<real>, now: real) {
    bucket == [] || now - bucket[|bucket| - 1] > IDLE_LIMIT
  }

  function Evicted(buckets: map<string, seq<real>>, now: real): map<string, seq<real>> {
    map ip | ip in buckets && !IsIdle(buckets[ip], now) :: buckets[ip]
  }

  /** The limiter's buckets, and when they were last cleaned up. */
  datatype Buckets = Buckets(lists: map<string, seq<real>>, cleaned: real)

  function RequestStep(b: Buckets, ip: string, now: real): (Buckets, bool) {
    var swept := if now - b.cleaned > CLEANUP_INTERVAL then Buckets(Evicted(b.lists, now), now) else b;
    var (kept, ok) := Attempt(Kept(swept.lists, ip), now, REQUESTS_PER_MINUTE, REQUEST_WINDOW);
    (swept.(lists := swept.lists[ip := kept]), ok)
  }

  /** A restart touches the list of its own thread only. */
  lemma OtherThreadsStay(restarts: map<string, seq<real>>, name: string, now: real, other: string)
    requires other != name
    ensures var restarts' := RestartStep(restarts, name, now).0;
            Kept(restarts', other) == Kept(restarts, other) && (other in restarts' <==> other in restarts)
  {
  }

  /** A request touches the bucket of its own address only, except that five minutes after the last cleanup the others
      lose the buckets that are empty or have been idle for two minutes. */
  lemma EvictedIff(b: Buckets, ip: string, now: real, other: string)
    requires other != ip && other in b.lists
    ensures var b', bucket := RequestStep(b, ip, now).0, b.lists[other];
            && (other in b'.lists <==> now - b.cleaned <= 300.0 || (bucket != [] && now - bucket[|bucket| - 1] <= 120.0))
            && (other in b'.lists ==> b'.lists[other] == bucket)
            && b'.cleaned == if now - b.cleaned > 300.0 then now else b.cleaned
  {
  }

  lemma SetTwice(m: map<string, seq<real>>, k: string, a: seq<real>, b: seq<real>)
    ensures m[k := a][k := b] == m[k := b]
  {
  }

  class ThreadWatchdog {
    var restarts: map<string, seq<real>>
    ghost var history: seq<Grant>

    /** The latest time seen, and whether the clock has never stepped back. */
    ghost var clock: real
    ghost var steady: bool

    ghost predicate Valid()
      reads this
    {
      steady ==>
        && Knows(restarts, history, clock, 3600.0)
        && Granted(history, 10, 3600.0)
    }

    constructor (now: real)
      ensures Valid() && history == [] && clock == now && steady
    {
      restarts, history, clock, steady := map[], [], now, true;
    }

    /** While the clock is steady, granted exactly when the full history has fewer than ten restarts of the thread in
        the last hour. */
    method CanRestart(name: string, now: real) returns (ok: bool)
      requires Valid()
      modifies this
      ensures Valid() && clock == now && steady == (old(steady) && old(clock) <= now)
      ensures (restarts, ok) == RestartStep(old(restarts), name, now)
      ensures history == if ok then old(history) + [Grant(name, now)] else old(history)
      ensures steady ==> (ok <==> |Recent(Times(old(history), name), now, 3600.0)| < 10)
    {
      ghost var was, before, recent := clock, restarts, Recent(Kept(restarts, name), now, RESTART_WINDOW);
      clock, steady := now, steady && clock <= now;
      if steady {
        KnowsAfterPrune(restarts, history, was, now, RESTART_WINDOW, name);
      }
      if name !in restarts {
        restarts := restarts[name := []];
      }
      restarts := restarts[name := Recent(restarts[name], now, RESTART_WINDOW)];
      SetTwice(before, name, [], recent);
      SetTwice(before, name, recent, recent + [now]);
      assert restarts == before[name := recent];
      if |restarts[name]| >= MAX_THREAD_RESTARTS {
        return false;
      }
      if steady {
        KnowsAfterGrant(restarts, history, now, RESTART_WINDOW, name);
        GrantedGrows(history, Grant(name, now), MAX_THREAD_RESTARTS, RESTART_WINDOW);
      }
      restarts := restarts[name := restarts[name] + [now]];
      history := history + [Grant(name, now)];
      ok := true;
    }

    method GetRestartCount(name: string, now: real) returns (n: nat)
      requires Valid()
      ensures n == |Recent(Kept(restarts, name), now, 3600.0)|
      ensures steady && clock <= now ==> n == |Recent(Times(history, name), now, 3600.0)|
    {
      if steady && clock <= now {
        KnowsAfterPrune(restarts, history, clock, now, RESTART_WINDOW, name);
      }
      n := |Recent(if name in restarts then restarts[name] else [], now, RESTART_WINDOW)|;
    }
  }

  // ---- the request limiter ----

  lemma KnowsAfterEviction(buckets: map<string, seq<real>>, history: seq<Grant>, was: real, now: real)
    requires Knows(buckets, history, was, REQUEST_WINDOW) && was <= now
    ensures Knows(Evicted(buckets, now), history, now, REQUEST_WINDOW)
  {
    forall ip
      ensures Faithful(Kept(Evicted(buckets, now), ip), Times(history, ip), now, REQUEST_WINDOW)
    {
      LaterIsFaithful(Kept(buckets, ip), Times(history, ip), was, now, REQUEST_WINDOW);
      if IsIdle(Kept(buckets, ip), now) {
        DropIsFaithful(Kept(buckets, ip), Times(history, ip), now, REQUEST_WINDOW);
      }
    }
  }

  class RateLimiter {
    var buckets: map<string, seq<real>>
    var lastCleanup: real
    ghost var history: seq<Grant>
    ghost var clock: real
    ghost var steady: bool

    ghost predicate Valid()
      reads this
    {
      steady ==>
        && Knows(buckets, history, clock, 60.0)
        && Granted(history, 120, 60.0)
    }

    constructor (now: real)
      ensures Valid() && history == [] && clock == now && steady && Buckets(buckets, lastCleanup) == Buckets(map[], now)
    {
      buckets, history, clock, lastCleanup, steady := map[], [], now, now, true;
    }

    /** While the clock is steady, granted exactly when the full history has fewer than 120 requests of the address in
        the last minute, whatever was pruned or evicted before. */
    method CheckRateLimit(ip: string, now: real) returns (ok: bool)
      requires Valid()
      modifies this
      ensures Valid() && clock == now && steady == (old(steady) && old(clock) <= now)
      ensures (Buckets(buckets, lastCleanup), ok) == RequestStep(Buckets(old(buckets), old(lastCleanup)), ip, now)
      ensures history == if ok then old(history) + [Grant(ip, now)] else old(history)
      ensures steady ==> (ok <==> |Recent(Times(old(history), ip), now, 60.0)| < 120)
    {
      ghost var was := clock;
      clock, steady := now, steady && clock <= now;
      if now - lastCleanup > CLEANUP_INTERVAL {
        if steady {
          KnowsAfterEviction(buckets, history, was, now);
          was := now;
        }
        buckets := Evicted(buckets, now);
        lastCleanup := now;
      }
      if steady {
        KnowsAfterPrune(buckets, history, was, now, REQUEST_WINDOW, ip);
      }
      ghost var swept, recent := buckets, Recent(Kept(buckets, ip), now, REQUEST_WINDOW);
      buckets := buckets[ip := Recent(if ip in buckets then buckets[ip] else [], now, REQUEST_WINDOW)];
      SetTwice(swept, ip, recent, recent + [now]);
      if |buckets[ip]| >= REQUESTS_PER_MINUTE {
        return false;
      }
      if steady {
        KnowsAfterGrant(buckets, history, now, REQUEST_WINDOW, ip);
        GrantedGrows(history, Grant(ip, now), REQUESTS_PER_MINUTE, REQUEST_WINDOW);
      }
      buckets := buckets[ip := buckets[ip] + [now]];
      history := history + [Grant(ip, now)];
      ok := true;
    }
  }

  // ---- the clock ----

  /** The attempts at the given times, from an empty list: what is kept, and which are granted. */
  function Attempts(times: seq<real>, cap: nat, window: real): (seq<real>, seq<real>) {
    if times == [] then ([], []) else
    var n := |times| - 1;
    var (kept, granted) := Attempts(times[..n], cap, window);
    var (kept', ok) := Attempt(kept, times[n], cap, window);
    (kept', if ok then granted + [times[n]] else granted)
  }

  lemma AttemptsGrow(times: seq<real>, now: real, cap: nat, window: real)
    ensures var (kept, granted) := Attempts(times, cap, window);
            var (kept', ok) := Attempt(kept, now, cap, window);
            Attempts(times + [now], cap, window) == (kept', if ok then granted + [now] else granted)
  {
    assert (times + [now])[..|times|] == times;
  }

  /** The same attempts made of the watchdog, for one thread. */
  function RestartRun(times: seq<real>, name: string): (map<string, seq<real>>, seq<real>) {
    if times == [] then (map[], []) else
    var n := |times| - 1;
    var (restarts, granted) := RestartRun(times[..n], name);
    var (restarts', ok) := RestartStep(restarts, name, times[n]);
    (restarts', if ok then granted + [times[n]] else granted)
  }

  /** And of the request limiter, for one address, from a cleanup at the given time. */
  function RequestRun(times: seq<real>, ip: string, cleaned: real): (Buckets, seq<real>) {
    if times == [] then (Buckets(map[], cleaned), []) else
    var n := |times| - 1;
    var (b, granted) := RequestRun(times[..n], ip, cleaned);
    var (b', ok) := RequestStep(b, ip, times[n]);
    (b', if ok then granted + [times[n]] else granted)
  }

  lemma {:induction false} RestartsAreAttempts(times: seq<real>, name: string)
    ensures var (restarts, granted) := RestartRun(times, name);
            (Kept(restarts, name), granted) == Attempts(times, MAX_THREAD_RESTARTS, RESTART_WINDOW)
  {
    if times != [] {
      RestartsAreAttempts(times[..|times| - 1], name);
    }
  }

  lemma {:induction false} RequestsAreAttempts(times: seq<real>, ip: string, cleaned: real)
    requires forall i :: 0 <= i < |times| ==> times[i] - cleaned <= CLEANUP_INTERVAL
    ensures var (b, granted) := RequestRun(times, ip, cleaned);
            (Kept(b.lists, ip), granted) == Attempts(times, REQUESTS_PER_MINUTE, REQUEST_WINDOW) && b.cleaned == cleaned
  {
    if times != [] {
      RequestsAreAttempts(times[..|times| - 1], ip, cleaned);
    }
  }

  /** At times that do not fall, no window holds more than cap granted attempts. */
  lemma {:induction false} SteadyAttempts(times: seq<real>, cap: nat, window: real, from: real)
    requires forall i, j :: 0 <= i < j < |times| ==> times[i] <= times[j]
    ensures var (kept, granted) := Attempts(times, cap, window);
            && CountIn(granted, from, from + window) <= cap
            && (times != [] ==> Faithful(kept, granted, times[|times| - 1], window))
            && (times == [] ==> kept == granted == [])
  {
    if times != [] {
      var n := |times| - 1;
      var now := times[n];
      var (kept, granted) := Attempts(times[..n], cap, window);
      SteadyAttempts(times[..n], cap, window, from);
      var was := if n > 0 then times[n - 1] else now;
      PruneIsFaithful(kept, granted, was, now, window);
      GrantIsFaithful(Recent(kept, now, window), granted, now, window);
      CountGrows(granted, now, from, from + window);
      if from <= now < from + window {
        WindowIsRecent(granted, from, now, window);
      }
    }
  }

  /** cap attempts at once, one a whole window later, and one at a time before that. */
  function StepBack(cap: nat, window: real, early: real): seq<real> {
    seq(cap, _ => 0.0) + [window] + [early]
  }

  lemma {:induction false} AtOnce(n: nat, cap: nat, window: real)
    requires n <= cap && window > 0.0
    ensures var zeros := seq(n, _ => 0.0);
            Attempts(zeros, cap, window) == (zeros, zeros) && Recent(zeros, 0.0, window) == zeros
            && CountIn(zeros, 0.0, window) == n
  {
    if n > 0 {
      AtOnce(n - 1, cap, window);
      var zeros := seq(n - 1, _ => 0.0);
      assert seq(n, _ => 0.0) == zeros + [0.0];
      AttemptsGrow(zeros, 0.0, cap, window);
      RecentGrows(zeros, 0.0, 0.0, window);
      CountGrows(zeros, 0.0, 0.0, window);
    }
  }

  /** The lists forget: when the clock steps back within the window they have forgotten, every attempt is granted,
      and the window holds one more than the cap. */
  lemma SteppedAttempts(cap: nat, window: real, early: real)
    requires cap >= 2 && 0.0 <= early < window
    ensures var times := StepBack(cap, window, early);
            Attempts(times, cap, window).1 == times && CountIn(times, 0.0, window) == cap + 1
  {
    var zeros := seq(cap, _ => 0.0);
    AtOnce(cap, cap, window);
    OldIsNotRecent(zeros, window, window);
    AttemptsGrow(zeros, window, cap, window);
    CountGrows(zeros, window, 0.0, window);
    RecentGrows([], window, early, window);
    assert [] + [window] == [window];
    AttemptsGrow(zeros + [window], early, cap, window);
    CountGrows(zeros + [window], early, 0.0, window);
  }

  /** So the clock must not step back: eleven restarts in an hour, and 121 requests in a minute, can be granted. */
  lemma ClockMustNotStepBack(name: string, early: real)
    ensures 0.0 <= early < 3600.0 ==>
              var granted := RestartRun(StepBack(10, 3600.0, early), name).1;
              CountIn(granted, 0.0, 3600.0) == 11
    ensures 0.0 <= early < 60.0 ==>
              var granted := RequestRun(StepBack(120, 60.0, early), name, 0.0).1;
              CountIn(granted, 0.0, 60.0) == 121
  {
    if 0.0 <= early < RESTART_WINDOW {
      SteppedAttempts(MAX_THREAD_RESTARTS, RESTART_WINDOW, early);
      RestartsAreAttempts(StepBack(MAX_THREAD_RESTARTS, RESTART_WINDOW, early), name);
    }
    if 0.0 <= early < REQUEST_WINDOW {
      SteppedAttempts(REQUESTS_PER_MINUTE, REQUEST_WINDOW, early);
      RequestsAreAttempts(StepBack(REQUESTS_PER_MINUTE, REQUEST_WINDOW, early), name, 0.0);
    }
  }
}
