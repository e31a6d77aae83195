/** Attempts count refusals exactly, and against a server that always gives a payload the same answer the
    queue drains. */
module WeighbridgeDelivery {
  import opened Common
  import opened WeighbridgeDb
  import opened WeighbridgeSync
  import opened WeighbridgeSafety

  /** Refusals of row q since it was enqueued or last brought back from the cap. */
  function Strikes(log: seq<Event>, q: nat): nat {
    if log == [] then 0 else
    var before := Strikes(log[..|log| - 1], q);
    match log[|log| - 1]
    case RefusedRow(r) => before + if r == q then 1 else 0
    case Requeueing => if before >= SYNC_MAX_ATTEMPTS then 0 else before
  }

  lemma StrikesAppend(log: seq<Event>, e: Event, q: nat)
    ensures Strikes(log + [e], q) == match e
                                     case RefusedRow(r) => Strikes(log, q) + (if r == q then 1 else 0)
                                     case Requeueing => if Strikes(log, q) >= SYNC_MAX_ATTEMPTS then 0 else Strikes(log, q)
  {
    assert (log + [e])[..|log|] == log;
  }

  lemma {:induction false} NoStrikes(log: seq<Event>, q: nat)
    requires RefusedRow(q) !in log
    ensures Strikes(log, q) == 0
  {
    if log != [] {
      NoStrikes(log[..|log| - 1], q);
    }
  }

  /** Exactly when a failed POST is counted as what it was: the body was not empty, or the failure before it
      was transient. An empty body is judged by that stale memory. */
  lemma CountIsExactIff(link: Link, a: Answer)
    requires !a.Accepted()
    ensures (CountsAttempt(AfterPost(link, a), a) <==> a.Refused()) <==> a.Proper() || link.lastFailureTransient
  {
    assert a.Result().None? ==> AfterPost(link, a).lastFailureTransient == !IsPermanentRejection(a.cloud);
    assert a.Result().Some? ==> AfterPost(link, a).lastFailureTransient == link.lastFailureTransient;
  }

  // ---- what burns an attempt, by what the servers sent ----

  /** The cloud turned the request down for good: a 4xx that is neither about the key nor asking for a retry. */
  predicate TurnedDown(code: int) {
    400 <= code <= 499 && code != 401 && code != 403 && code != 408 && code != 429
  }

  /** When no server answered with a body, an attempt is counted exactly for such a code. */
  lemma HttpCountsIff(link: Link, a: Answer)
    requires !a.cloud.Body? && (a.factoryEnabled ==> !a.factory.Body?)
    ensures CountsAttempt(AfterPost(link, a), a) <==> a.cloud.HttpError? && TurnedDown(a.cloud.code)
    ensures a.Refused() <==> a.cloud.HttpError? && TurnedDown(a.cloud.code)
    ensures !a.Accepted() && a.Proper()
  {
  }

  /** When one did, the factory's body counts, if there is one: it accepts if it says something and no error, and burns
      an attempt if it says an error. */
  lemma BodyCountsIff(link: Link, a: Answer)
    requires a.cloud.Body? || (a.factoryEnabled && a.factory.Body?)
    ensures var body := if a.factoryEnabled && a.factory.Body? then a.factory else a.cloud;
            && a.Result() == Some(body)
            && (a.Accepted() <==> body.truthy && !body.error) && (a.Refused() <==> body.truthy && body.error)
            && (body.truthy ==> a.Proper() && CountsAttempt(AfterPost(link, a), a))
            && (!body.truthy ==> !a.Proper() && (CountsAttempt(AfterPost(link, a), a) <==> !link.lastFailureTransient))
  {
  }

  /** What a POST leaves in memory: each server asked is reachable if it sent a body, the last target is the one whose
      body is used, a body resets the backoff, and only a failure of both changes the class of the last failure. */
  lemma LinkAfterPost(link: Link, a: Answer)
    ensures var l, fromFactory := AfterPost(link, a), a.factoryEnabled && a.factory.Body?;
            && l.factoryReachable == (if a.factoryEnabled then a.factory.Body? else link.factoryReachable)
            && l.cloudReachable == (if fromFactory then link.cloudReachable else a.cloud.Body?)
            && (fromFactory ==> l.lastTarget == "factory") && (!fromFactory && a.cloud.Body? ==> l.lastTarget == "cloud")
            && (a.Result().Some? ==> l.backoff == 10 && l.lastFailureTransient == link.lastFailureTransient)
            && (a.Result().None? ==>
                  && l.lastTarget == link.lastTarget && l.backoff == link.backoff
                  && (l.lastFailureTransient <==> !(a.cloud.HttpError? && TurnedDown(a.cloud.code))))
  {
  }

  /** Accepted, or an outage: no body from either server, and from the cloud no answer, a 5xx, or one of the four 4xx
      that say to try again or that the key is wrong. */
  predicate Harmless(a: Answer) {
    a.Accepted() ||
    (&& !a.cloud.Body? && (a.factoryEnabled ==> !a.factory.Body?)
     && (a.cloud.NetworkFailure? || 500 <= a.cloud.code <= 599 || a.cloud.code in {401, 403, 408, 429}))
  }

  ghost predicate OutageStep(s: State, a: Action) {
    a.Post? ==> Harmless(a.answer)
  }

  /** About to mark, the thread will not count this answer. */
  ghost predicate WontCount(s: State) {
    s.pc.Marking? ==> s.pc.answer.Accepted() || !CountsAttempt(s.link, s.pc.answer)
  }

  lemma OutageKeeps(s: State, a: Action, q: nat)
    requires QueueOk(s) && Enabled(s, a) && OutageStep(s, a) && WontCount(s)
    ensures WontCount(Apply(s, a))
    ensures Pending(s, q) && Pending(Apply(s, a), q) ==>
              var n, n' := s.db.queue[q].attempts, Apply(s, a).db.queue[q].attempts;
              n' == n || ((a.Requeue? || a.Restart?) && n >= 10 && n' == 0)
    ensures q !in s.db.queue && Pending(Apply(s, a), q) ==> Apply(s, a).db.queue[q].attempts == 0
  {
    if a.Post? && !a.answer.Accepted() { HttpCountsIff(s.link, a.answer); }
  }

  /** However long an outage lasts, and whatever else happens meanwhile, no pending row loses an attempt to it: its
      attempts are what they were when it was enqueued, or at the start, unless it was requeued, which sets them to 0. */
  lemma {:induction false} OutageBurnsNothing(states: seq<State>, actions: seq<Action>, i: nat, j: nat, q: nat)
    requires Run(states, actions) && i <= j < |states| && WontCount(states[i])
    requires forall k | i <= k < j :: OutageStep(states[k], actions[k])
    ensures WontCount(states[j])
    ensures Pending(states[j], q) ==>
              var n := states[j].db.queue[q].attempts;
              n == 0 || (q in states[i].db.queue && states[i].db.queue[q].attempts == n)
    decreases j - i
  {
    if i < j {
      OutageBurnsNothing(states, actions, i, j - 1, q);
      RunKeeps(states, actions, j - 1);
      assert TakesStep(states, actions, j - 1);
      OutageKeeps(states[j - 1], actions[j - 1], q);
      if Pending(states[j], q) { PendingBefore(states[j - 1], actions[j - 1], q); }
    }
  }

  /** A row that is pending was pending before the step, or is new. */
  lemma PendingBefore(s: State, a: Action, q: nat)
    requires QueueOk(s) && Enabled(s, a) && Pending(Apply(s, a), q)
    ensures q !in s.db.queue || Pending(s, q)
  {
  }

  /** Each pending row's attempts are its strikes. */
  ghost predicate Exact(s: State) {
    && (forall q | Pending(s, q) :: s.db.queue[q].attempts == Strikes(s.log, q))
    && (forall q: nat | RefusedRow(q) in s.log :: q < s.db.nextId)
    && (s.pc.Marking? ==> Judged(s.link, s.pc.answer))
  }

  /** The answer, if it is a failure, will be counted as what it was. */
  predicate Judged(link: Link, a: Answer) {
    a.Accepted() || (CountsAttempt(link, a) <==> a.Refused())
  }

  /** A POST whose answer is counted as what it is: its body is not empty, or the failure before it was transient. */
  predicate Countable(s: State, a: Action) {
    a.Post? ==> a.answer.Proper() || s.link.lastFailureTransient
  }

  lemma MarkIsExact(s: State, now: int, q: nat)
    requires Inv(s) && Exact(s) && Enabled(s, Mark(now)) && Pending(s, q) && Pending(Apply(s, Mark(now)), q)
    ensures Apply(s, Mark(now)).db.queue[q].attempts == Strikes(Apply(s, Mark(now)).log, q)
  {
    StrikesAppend(s.log, RefusedRow(s.pc.page[0].q), q);
  }

  lemma ExactAt(s: State, a: Action, q: nat)
    requires Inv(s) && Exact(s) && Enabled(s, a) && Countable(s, a)
    requires Pending(Apply(s, a), q)
    ensures Apply(s, a).db.queue[q].attempts == Strikes(Apply(s, a).log, q)
  {
    if q == s.db.nextId {
      NoStrikes(s.log, q);
    } else {
      assert Pending(s, q);
      match a
      case Mark(_) => MarkIsExact(s, a.now, q);
      case Requeue => StrikesAppend(s.log, Requeueing, q);
      case Restart => StrikesAppend(s.log, Requeueing, q);
      case _ =>
    }
  }

  lemma ExactKept(s: State, a: Action)
    requires Inv(s) && Exact(s) && Enabled(s, a) && Countable(s, a)
    ensures Exact(Apply(s, a))
  {
    forall q | Pending(Apply(s, a), q) ensures Apply(s, a).db.queue[q].attempts == Strikes(Apply(s, a).log, q) {
      ExactAt(s, a, q);
    }
    if a.Mark? { assert s.pc.page[0] in PageOf(s.pc); }
    if a.Post? && !a.answer.Accepted() { CountIsExactIff(s.link, a.answer); }
  }

  /** In every run in which no empty body follows a failure that was not transient, attempts are exact; a row never
      refused stays eligible for as long as it is pending. */
  lemma {:induction false} RunIsExact(states: seq<State>, actions: seq<Action>, i: nat)
    requires Run(states, actions) && i < |states|
    requires forall k | 0 <= k < |actions| :: Countable(states[k], actions[k])
    ensures Exact(states[i])
    ensures forall q | Pending(states[i], q) && RefusedRow(q) !in states[i].log :: Eligible(states[i].db.queue[q])
  {
    if i > 0 {
      RunIsExact(states, actions, i - 1);
      RunKeeps(states, actions, i - 1);
      assert TakesStep(states, actions, i - 1);
      ExactKept(states[i - 1], actions[i - 1]);
    }
    forall q | Pending(states[i], q) && RefusedRow(q) !in states[i].log ensures Eligible(states[i].db.queue[q]) {
      NoStrikes(states[i].log, q);
    }
  }

  /** Requeueing makes every pending row eligible again and changes no row otherwise. */
  lemma RequeueRevives(db: Db, q: nat)
    ensures q in RequeueStuck(db).queue <==> q in db.queue
    ensures q in db.queue ==>
              var row, row' := db.queue[q], RequeueStuck(db).queue[q];
              (row.sent || Eligible(row')) && (row.sent || Eligible(row) ==> row' == row) && row'.payload == row.payload
  {
  }

  /** What the servers answer to the k-th POST of a pass, given the payload. */
  type Server = (nat, Weighment) -> Answer

  /** One pass from its first POST to its end. */
  function Pass(s: State, server: Server, k: nat, now: int): State
    decreases |PageOf(s.pc)|
  {
    if !s.pc.Posting? || s.pc.page == [] then s else
    var posted := Apply(s, Post(server(k, s.pc.page[0].payload), false));
    Pass(Apply(posted, Mark(now)), server, k + 1, now)
  }

  function PostAndMark(s: State, server: Server, k: nat, now: int): State
    requires s.pc.Posting? && s.pc.page != []
  {
    Apply(Apply(s, Post(server(k, s.pc.page[0].payload), false)), Mark(now))
  }

  /** How many POSTs the pass makes. */
  function PostsIn(s: State, server: Server, k: nat, now: int): nat
    decreases |PageOf(s.pc)|
  {
    if !s.pc.Posting? || s.pc.page == [] then 0
    else 1 + PostsIn(PostAndMark(s, server, k, now), server, k + 1, now)
  }

  /** Which of the POSTs for these entries are not accepted. */
  function Failures(page: seq<Entry>, server: Server, k: nat): seq<bool> {
    if page == [] then [] else [!server(k, page[0].payload).Accepted()] + Failures(page[1..], server, k + 1)
  }

  /** How many of the first n failed at the end of them, after f before. */
  function InARow(failed: seq<bool>, n: nat, f: nat): nat
    requires n <= |failed|
  {
    if n == 0 then f else if failed[n - 1] then InARow(failed, n - 1, f) + 1 else 0
  }

  lemma {:induction false} InARowFromFirst(failed: seq<bool>, n: nat, f: nat)
    requires 0 < n <= |failed|
    ensures InARow(failed, n, f) == InARow(failed[1..], n - 1, if failed[0] then f + 1 else 0)
  {
    if n > 1 {
      InARowFromFirst(failed, n - 1, f);
    }
  }

  /** One entry of a pass, and where that leaves it. */
  lemma OneEntry(s: State, server: Server, k: nat, now: int)
    requires s.pc.Posting? && s.pc.page != []
    ensures var s', page, more := PostAndMark(s, server, k, now), s.pc.page, Failures(s.pc.page[1..], server, k + 1);
            && Failures(page, server, k) == [!server(k, page[0].payload).Accepted()] + more
            && PostsIn(s, server, k, now) == 1 + PostsIn(s', server, k + 1, now)
            && var f := if Failures(page, server, k)[0] then s.pc.failures + 1 else 0;
               && (s'.pc.Posting? <==> |page| > 1 && f < 3)
               && (s'.pc.Posting? ==> s'.pc.page == page[1..] && s'.pc.failures == f)
               && (!s'.pc.Posting? ==> PostsIn(s', server, k + 1, now) == 0)
  {
  }

  /** The first n are the shortest start that ends in three failures in a row, after f before, or all if there is none. */
  ghost predicate StopAt(failed: seq<bool>, n: nat, f: nat) {
    && 0 < n <= |failed| && (n < |failed| ==> InARow(failed, n, f) >= 3)
    && forall m | 0 <= m < n :: InARow(failed, m, f) < 3
  }

  lemma StopAtFirst(failed: seq<bool>, n: nat, f: nat)
    requires failed != [] && f < 3
    requires var f' := if failed[0] then f + 1 else 0;
             if |failed| > 1 && f' < 3 then n > 1 && StopAt(failed[1..], n - 1, f') else n == 1
    ensures StopAt(failed, n, f)
  {
    forall m | 0 < m <= n ensures InARow(failed, m, f) == InARow(failed[1..], m - 1, if failed[0] then f + 1 else 0) {
      InARowFromFirst(failed, m, f);
    }
  }

  lemma {:induction false} StopsAfterThree(s: State, server: Server, k: nat, now: int)
    requires s.pc.Posting? && s.pc.page != [] && s.pc.failures < 3
    ensures StopAt(Failures(s.pc.page, server, k), PostsIn(s, server, k, now), s.pc.failures)
    decreases |s.pc.page|
  {
    var s', failed := PostAndMark(s, server, k, now), Failures(s.pc.page, server, k);
    FailuresLength(s.pc.page, server, k);
    OneEntry(s, server, k, now);
    assert failed[1..] == Failures(s.pc.page[1..], server, k + 1);
    if s'.pc.Posting? {
      StopsAfterThree(s', server, k + 1, now);
    }
    StopAtFirst(failed, PostsIn(s, server, k, now), s.pc.failures);
  }

  predicate LastThreeFailed(failed: seq<bool>, m: nat) {
    3 <= m <= |failed| && failed[m - 3] && failed[m - 2] && failed[m - 1]
  }

  lemma InARowIff(failed: seq<bool>, m: nat)
    requires m <= |failed|
    ensures InARow(failed, m, 0) >= 3 <==> LastThreeFailed(failed, m)
  {
    if m >= 1 { assert InARow(failed, m, 0) == if failed[m - 1] then InARow(failed, m - 1, 0) + 1 else 0; }
    if m >= 2 { assert InARow(failed, m - 1, 0) == if failed[m - 2] then InARow(failed, m - 2, 0) + 1 else 0; }
    if m >= 3 { assert InARow(failed, m - 2, 0) == if failed[m - 3] then InARow(failed, m - 3, 0) + 1 else 0; }
  }

  /** A pass goes through its whole page, unless three POSTs in a row fail, after which it stops at once. */
  lemma PassStops(s: State, server: Server, now: int)
    requires s.pc.Posting? && s.pc.page != [] && s.pc.failures == 0
    ensures var n, failed := PostsIn(s, server, 0, now), Failures(s.pc.page, server, 0);
            && n <= |failed| == |s.pc.page| && (n < |failed| ==> LastThreeFailed(failed, n))
            && forall m: nat | m < n :: !LastThreeFailed(failed, m)
  {
    var n, failed := PostsIn(s, server, 0, now), Failures(s.pc.page, server, 0);
    FailuresLength(s.pc.page, server, 0);
    StopsAfterThree(s, server, 0, now);
    forall m | 0 <= m <= n ensures InARow(failed, m, 0) >= 3 <==> LastThreeFailed(failed, m) {
      InARowIff(failed, m);
    }
  }

  lemma {:induction false} FailuresLength(page: seq<Entry>, server: Server, k: nat)
    ensures |Failures(page, server, k)| == |page|
  {
    if page != [] {
      FailuresLength(page[1..], server, k + 1);
    }
  }

  /** The servers always accept a payload or always refuse it. */
  ghost predicate Deterministic(server: Server, accepts: Weighment -> bool) {
    forall k, p :: if accepts(p) then server(k, p).Accepted() else server(k, p).Refused() && server(k, p).Proper()
  }

  /** Attempts a row still has before it is dead-lettered. */
  function Left(queue: map<nat, QueueRow>, q: nat): nat {
    if q in queue && Eligible(queue[q]) then SYNC_MAX_ATTEMPTS - queue[q].attempts else 0
  }

  function TotalLeft(queue: map<nat, QueueRow>, n: nat): nat {
    if n == 0 then 0 else TotalLeft(queue, n - 1) + Left(queue, n - 1)
  }

  function EligibleCount(queue: map<nat, QueueRow>, n: nat): nat {
    if n == 0 then 0 else EligibleCount(queue, n - 1) + if n - 1 in queue && Eligible(queue[n - 1]) then 1 else 0
  }

  function Total(s: State): nat {
    TotalLeft(s.db.queue, s.db.nextId)
  }

  lemma {:induction false} TotalWithOneChange(queue: map<nat, QueueRow>, queue': map<nat, QueueRow>, q: nat, n: nat)
    requires q < n && forall r: nat | r != q :: Left(queue', r) == Left(queue, r)
    ensures TotalLeft(queue', n) + Left(queue, q) == TotalLeft(queue, n) + Left(queue', q)
  {
    if n - 1 > q {
      TotalWithOneChange(queue, queue', q, n - 1);
    } else {
      TotalSame(queue, queue', n - 1);
    }
  }

  lemma {:induction false} TotalSame(queue: map<nat, QueueRow>, queue': map<nat, QueueRow>, n: nat)
    requires forall r: nat | r < n :: Left(queue', r) == Left(queue, r)
    ensures TotalLeft(queue', n) == TotalLeft(queue, n)
  {
    if n > 0 {
      TotalSame(queue, queue', n - 1);
    }
  }

  lemma {:induction false} TotalBounds(queue: map<nat, QueueRow>, n: nat)
    ensures TotalLeft(queue, n) <= SYNC_MAX_ATTEMPTS * EligibleCount(queue, n)
    ensures forall q: nat | q < n :: Left(queue, q) <= TotalLeft(queue, n)
  {
    if n > 0 {
      TotalBounds(queue, n - 1);
    }
  }

  /** How a row may have changed over passes: sent if its payload is acceptable, else closer to the cap. */
  ghost predicate Progressed(row: QueueRow, row': QueueRow, accepts: Weighment -> bool) {
    && row'.payload == row.payload && row'.wid == row.wid
    && (if accepts(row.payload) then row'.attempts == row.attempts && (row.sent ==> row'.sent)
        else row'.sent == row.sent && row.attempts <= row'.attempts &&
             (row.attempts <= SYNC_MAX_ATTEMPTS ==> row'.attempts <= SYNC_MAX_ATTEMPTS))
  }

  ghost predicate AllProgressed(db: Db, db': Db, accepts: Weighment -> bool) {
    && db'.nextId == db.nextId && db'.queue.Keys == db.queue.Keys
    && forall q | q in db.queue :: Progressed(db.queue[q], db'.queue[q], accepts)
  }

  /** The entries are copies of eligible rows, each once. */
  ghost predicate PageReady(db: Db, page: seq<Entry>) {
    && (forall i | 0 <= i < |page| ::
          page[i].q in db.queue && page[i].q < db.nextId && Eligible(db.queue[page[i].q]) &&
          page[i].payload == db.queue[page[i].q].payload)
    && (forall i, j | 0 <= i < j < |page| :: page[i].q != page[j].q)
  }

  /** Marking an eligible row by a deterministic answer moves it on and takes at least one attempt off the total. */
  lemma MarkMovesOn(db: Db, q: nat, link: Link, a: Answer, now: int, accepts: Weighment -> bool)
    requires q in db.queue && Eligible(db.queue[q]) && q < db.nextId
    requires if accepts(db.queue[q].payload) then a.Accepted() else a.Refused() && CountsAttempt(link, a)
    ensures var db' := MarkDb(db, q, link, a, now);
            && AllProgressed(db, db', accepts) && TotalLeft(db'.queue, db'.nextId) < TotalLeft(db.queue, db.nextId)
            && forall r | r in db.queue && r != q :: db'.queue[r] == db.queue[r]
  {
    var db' := MarkDb(db, q, link, a, now);
    TotalWithOneChange(db.queue, db'.queue, q, db.nextId);
  }

  /** One entry's POST and mark. */
  lemma EntryMovesOn(s: State, server: Server, accepts: Weighment -> bool, k: nat, now: int)
    requires s.pc.Posting? && s.pc.page != [] && PageReady(s.db, s.pc.page) && Deterministic(server, accepts)
    ensures var s' := PostAndMark(s, server, k, now);
            && PageReady(s'.db, PageOf(s'.pc)) && AllProgressed(s.db, s'.db, accepts)
            && !s'.pc.Marking? && |PageOf(s'.pc)| < |s.pc.page| && Total(s') < Total(s)
  {
    var e, answer := s.pc.page[0], server(k, s.pc.page[0].payload);
    var link := AfterPost(s.link, answer);
    if !answer.Accepted() { CountIsExactIff(s.link, answer); }
    MarkMovesOn(s.db, e.q, link, answer, now, accepts);
    var s' := PostAndMark(s, server, k, now);
    assert s'.db == MarkDb(s.db, e.q, link, answer, now);
    RestReady(s.db, s'.db, s.pc.page);
  }

  lemma RestReady(db: Db, db': Db, page: seq<Entry>)
    requires page != [] && PageReady(db, page) && db'.nextId == db.nextId && db'.queue.Keys == db.queue.Keys
    requires forall r | r in db.queue && r != page[0].q :: db'.queue[r] == db.queue[r]
    ensures PageReady(db', page[1..])
  {
  }

  lemma EntryKeepsInv(s: State, server: Server, k: nat, now: int)
    requires Inv(s) && s.pc.Posting? && s.pc.page != []
    ensures Inv(PostAndMark(s, server, k, now))
  {
    var post := Post(server(k, s.pc.page[0].payload), false);
    StepKeeps(s, post);
    StepKeeps(Apply(s, post), Mark(now));
  }

  lemma ProgressChains(a: Db, b: Db, c: Db, accepts: Weighment -> bool)
    requires AllProgressed(a, b, accepts) && AllProgressed(b, c, accepts)
    ensures AllProgressed(a, c, accepts)
  {
  }

  /** A pass over a non-empty page, early stop or not, strictly lowers the total. */
  lemma {:induction false} PassMovesOn(s: State, server: Server, accepts: Weighment -> bool, k: nat, now: int)
    requires PageReady(s.db, PageOf(s.pc)) && Deterministic(server, accepts) && !s.pc.Marking?
    ensures var s' := Pass(s, server, k, now);
            && AllProgressed(s.db, s'.db, accepts) && Total(s') <= Total(s)
            && (PageOf(s.pc) != [] ==> Total(s') < Total(s) && s'.pc.Idle?)
    decreases |PageOf(s.pc)|
  {
    if s.pc.Posting? && s.pc.page != [] {
      var s1 := PostAndMark(s, server, k, now);
      EntryMovesOn(s, server, accepts, k, now);
      PassMovesOn(s1, server, accepts, k + 1, now);
      ProgressChains(s.db, s1.db, Pass(s, server, k, now).db, accepts);
    }
  }

  lemma {:induction false} PassKeepsInv(s: State, server: Server, k: nat, now: int)
    requires Inv(s)
    ensures Inv(Pass(s, server, k, now))
    decreases |PageOf(s.pc)|
  {
    if s.pc.Posting? && s.pc.page != [] {
      EntryKeepsInv(s, server, k, now);
      PassKeepsInv(PostAndMark(s, server, k, now), server, k + 1, now);
    }
  }

  /** states[i + 1] is states[i] after one whole pass: fetch a page, work through it. */
  ghost predicate Passes(states: seq<State>, server: Server) {
    && states != [] && Inv(states[0]) && states[0].pc.Idle?
    && forall i | 0 <= i < |states| - 1 :: StepAt(states, i, server)
  }

  ghost predicate StepAt(states: seq<State>, i: nat, server: Server)
    requires i + 1 < |states|
  {
    PassStep(states[i], states[i + 1], server)
  }

  ghost predicate PassStep(s: State, s': State, server: Server) {
    exists page, now :: PassOf(s, s', server, page, now)
  }

  ghost predicate PassOf(s: State, s': State, server: Server, page: seq<Entry>, now: int) {
    s.pc.Idle? && IsPage(s.db, page) && s' == Pass(Apply(s, Fetch(page)), server, 0, now)
  }

  /** A pass lowers the total, unless nothing was eligible. */
  lemma PassLowers(s: State, s': State, server: Server, accepts: Weighment -> bool)
    requires Inv(s) && s.pc.Idle? && PassStep(s, s', server) && Deterministic(server, accepts)
    ensures Inv(s') && s'.pc.Idle? && AllProgressed(s.db, s'.db, accepts)
    ensures Total(s') < Total(s) || Total(s') == Total(s) == 0
  {
    var page, now :| PassOf(s, s', server, page, now);
    StepKeeps(s, Fetch(page));
    PassKeepsInv(Apply(s, Fetch(page)), server, 0, now);
    PassMovesOn(Apply(s, Fetch(page)), server, accepts, 0, now);
    if page == [] {
      forall q | q in s.db.queue ensures !Eligible(s.db.queue[q]) {
      }
      NothingLeft(s.db.queue, s.db.nextId);
    }
  }

  lemma {:induction false} NothingLeft(queue: map<nat, QueueRow>, n: nat)
    requires forall q | q in queue :: !Eligible(queue[q])
    ensures TotalLeft(queue, n) == 0
  {
    if n > 0 {
      NothingLeft(queue, n - 1);
    }
  }

  lemma {:induction false} TotalFalls(states: seq<State>, server: Server, accepts: Weighment -> bool, i: nat)
    requires Passes(states, server) && Deterministic(server, accepts) && i < |states|
    ensures Inv(states[i]) && states[i].pc.Idle?
    ensures Total(states[i]) + i <= Total(states[0]) || Total(states[i]) == 0
    ensures i > 0 ==> AllProgressed(states[i - 1].db, states[i].db, accepts)
  {
    if i > 0 {
      TotalFalls(states, server, accepts, i - 1);
      OnePass(states, server, accepts, i - 1);
    }
  }

  lemma OnePass(states: seq<State>, server: Server, accepts: Weighment -> bool, i: nat)
    requires Passes(states, server) && Deterministic(server, accepts) && i + 1 < |states| && Inv(states[i]) && states[i].pc.Idle?
    ensures Inv(states[i + 1]) && states[i + 1].pc.Idle? && AllProgressed(states[i].db, states[i + 1].db, accepts)
    ensures Total(states[i + 1]) < Total(states[i]) || Total(states[i + 1]) == Total(states[i]) == 0
  {
    assert StepAt(states, i, server);
    PassLowers(states[i], states[i + 1], server, accepts);
  }

  lemma {:induction false} RowsProgress(states: seq<State>, server: Server, accepts: Weighment -> bool, i: nat)
    requires Passes(states, server) && Deterministic(server, accepts) && i < |states|
    ensures AllProgressed(states[0].db, states[i].db, accepts)
  {
    if i > 0 {
      RowsProgress(states, server, accepts, i - 1);
      TotalFalls(states, server, accepts, i);
      ProgressChains(states[0].db, states[i - 1].db, states[i].db, accepts);
    }
  }

  /** Against a server that always answers a payload the same way, and with no new rows: after ten passes per
      eligible row, each such row has been delivered if its payload is acceptable, and is dead-lettered with
      exactly ten attempts, still stored, if it is not. */
  lemma QueueDrains(states: seq<State>, server: Server, accepts: Weighment -> bool, i: nat, q: nat)
    requires Passes(states, server) && Deterministic(server, accepts) && i < |states|
    requires i >= SYNC_MAX_ATTEMPTS * EligibleCount(states[0].db.queue, states[0].db.nextId)
    requires q in states[0].db.queue && Eligible(states[0].db.queue[q])
    ensures q in states[i].db.queue
    ensures var row := states[i].db.queue[q];
            if accepts(row.payload) then row.sent && row.payload in states[i].accepted
            else !row.sent && row.attempts == SYNC_MAX_ATTEMPTS
  {
    TotalFalls(states, server, accepts, i);
    RowsProgress(states, server, accepts, i);
    TotalBounds(states[0].db.queue, states[0].db.nextId);
    TotalBounds(states[i].db.queue, states[i].db.nextId);
    assert Left(states[i].db.queue, q) == 0;
    assert Progressed(states[0].db.queue[q], states[i].db.queue[q], accepts);
  }
}
