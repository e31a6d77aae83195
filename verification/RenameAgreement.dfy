/** The requests one device gets, one after the other, as runs on its view; which results the script counts as success;
    and what a success says. */
module RenameAgreement {
  import opened BiometricDevice
  import opened RenameReference
  import opened RenameSafety
  import opened RenameHistory
  import opened RenameCaches

  datatype PairStatus = Bridge(status: Status) | ChunkError {
    predicate Success() {
      Bridge? && status.Success()
    }
  }

  datatype PairResult = PairResult(oldId: string, newId: string, status: PairStatus)

  function Tagged(results: seq<Result>): seq<PairResult> {
    seq(|results|, i requires 0 <= i < |results| => PairResult(results[i].oldId, results[i].newId, Bridge(results[i].status)))
  }

  function Failed(pairs: seq<Pair>): seq<PairResult> {
    seq(|pairs|, i requires 0 <= i < |pairs| => PairResult(pairs[i].oldId, pairs[i].newId, ChunkError))
  }

  /** One request: its pairs, what the bridge read when it opened the connection, the fate of its calls, whether
      its answer was lost, and how it ended. */
  datatype Sent = Sent(pairs: seq<Pair>, cache: Cache, tape: Tape, lost: bool, ending: RunEnd)

  /** A lost answer, or that of a bridge that died, is replaced by a chunk error for each pair. */
  function Answer(s: Sent): seq<PairResult> {
    if s.ending.died || s.lost then Failed(s.pairs) else Tagged(s.ending.results)
  }

  function Answers(sent: seq<Sent>): seq<PairResult> {
    if sent == [] then [] else
    var n := |sent| - 1;
    Answers(sent[..n]) + Answer(sent[n])
  }

  function ViewAfter(v: View, sent: seq<Sent>): View {
    if sent == [] then v else sent[|sent| - 1].ending.view
  }

  function PairsSent(sent: seq<Sent>): seq<Pair> {
    if sent == [] then [] else
    var n := |sent| - 1;
    PairsSent(sent[..n]) + sent[n].pairs
  }

  /** The request is what the bridge does on a device that shows v. */
  ghost predicate Served(v: View, s: Sent) {
    ReadOff(s.cache, v) && s.ending == CachedAll(v, s.cache, s.pairs, s.tape, 0)
  }

  /** The requests were served one after the other. */
  ghost predicate InTurn(v: View, sent: seq<Sent>) {
    forall c | 0 <= c < |sent| :: ServedAt(v, sent, c)
  }

  ghost predicate ServedAt(v: View, sent: seq<Sent>, c: nat)
    requires c < |sent|
  {
    Served(ViewAfter(v, sent[..c]), sent[c])
  }

  ghost predicate Reports(results: seq<PairResult>, pairs: seq<Pair>) {
    |results| == |pairs| &&
    forall k | 0 <= k < |pairs| :: results[k].oldId == pairs[k].oldId && results[k].newId == pairs[k].newId
  }

  /** A run that did not die reports each of its pairs, in order. */
  lemma {:induction false} OneResultEach(v: View, cache: Cache, pairs: seq<Pair>, tape: Tape, clock: nat)
    ensures var run := CachedAll(v, cache, pairs, tape, clock);
            && (!run.died ==> |run.results| == |pairs|) && |run.results| <= |pairs|
            && forall k | 0 <= k < |run.results| ::
                 run.results[k].oldId == pairs[k].oldId && run.results[k].newId == pairs[k].newId
    decreases |pairs|
  {
    if pairs != [] {
      var one := CachedPair(v, cache, pairs[0], tape, clock);
      OneResultEach(one.view, one.cache, pairs[1..], tape, one.clock);
    }
  }

  lemma AnswerReports(v: View, s: Sent)
    requires Served(v, s)
    ensures Reports(Answer(s), s.pairs)
  {
    OneResultEach(v, s.cache, s.pairs, s.tape, 0);
  }

  lemma InTurnFront(v: View, sent: seq<Sent>)
    requires InTurn(v, sent) && sent != []
    ensures var n := |sent| - 1;
            InTurn(v, sent[..n]) && Served(ViewAfter(v, sent[..n]), sent[n])
  {
    var front := sent[..|sent| - 1];
    forall c | 0 <= c < |front| ensures ServedAt(v, front, c) {
      assert ServedAt(v, sent, c) && front[..c] == sent[..c];
    }
    assert ServedAt(v, sent, |sent| - 1);
  }

  lemma ReportsJoin(a: seq<PairResult>, b: seq<PairResult>, p: seq<Pair>, q: seq<Pair>)
    requires Reports(a, p) && Reports(b, q)
    ensures Reports(a + b, p + q)
  {
  }

  /** The request that holds pair k. */
  function Holder(sent: seq<Sent>, k: nat): (c: nat)
    requires k < |PairsSent(sent)|
    ensures c < |sent|
  {
    var n := |sent| - 1;
    if k < |PairsSent(sent[..n])| then Holder(sent[..n], k) else n
  }

  /** The pair's place in that request. */
  function PlaceIn(sent: seq<Sent>, k: nat): int
    requires k < |PairsSent(sent)|
  {
    k - |PairsSent(sent[..Holder(sent, k)])|
  }

  lemma {:induction false} HolderHolds(sent: seq<Sent>, k: nat)
    requires k < |PairsSent(sent)|
    ensures var s, j := sent[Holder(sent, k)], PlaceIn(sent, k);
            0 <= j < |s.pairs| && s.pairs[j] == PairsSent(sent)[k]
  {
    var n := |sent| - 1;
    if k < |PairsSent(sent[..n])| {
      HolderHolds(sent[..n], k);
      assert sent[..n][..Holder(sent, k)] == sent[..Holder(sent, k)];
    }
  }

  /** Each request gave as many results as it had pairs. */
  ghost predicate Complete(sent: seq<Sent>) {
    forall c | 0 <= c < |sent| :: |Answer(sent[c])| == |sent[c].pairs|
  }

  lemma {:induction false} AnswersLength(sent: seq<Sent>)
    requires Complete(sent)
    ensures |Answers(sent)| == |PairsSent(sent)|
  {
    if sent != [] {
      AnswersLength(sent[..|sent| - 1]);
    }
  }

  /** The answer to pair k is that of the request that holds it. */
  lemma {:induction false} AnswerAt(sent: seq<Sent>, k: nat)
    requires Complete(sent) && k < |PairsSent(sent)|
    ensures var s, j := sent[Holder(sent, k)], PlaceIn(sent, k);
            k < |Answers(sent)| && 0 <= j < |Answer(s)| && Answers(sent)[k] == Answer(s)[j]
  {
    var n := |sent| - 1;
    AnswersLength(sent[..n]);
    if k < |PairsSent(sent[..n])| {
      AnswerAt(sent[..n], k);
      FrontHolds(sent, k);
    }
  }

  lemma FrontHolds(sent: seq<Sent>, k: nat)
    requires sent != [] && k < |PairsSent(sent[..|sent| - 1])|
    ensures var front := sent[..|sent| - 1];
            Holder(sent, k) == Holder(front, k) && PlaceIn(sent, k) == PlaceIn(front, k)
  {
    assert sent[..|sent| - 1][..Holder(sent, k)] == sent[..Holder(sent, k)];
  }

  lemma InTurnIsComplete(v: View, sent: seq<Sent>)
    requires InTurn(v, sent)
    ensures Complete(sent)
  {
    forall c | 0 <= c < |sent| ensures |Answer(sent[c])| == |sent[c].pairs| {
      assert ServedAt(v, sent, c);
      AnswerReports(ViewAfter(v, sent[..c]), sent[c]);
    }
  }

  // ---- what success says when old ids do not repeat ----

  lemma SubPlan(pairs: seq<Pair>, i: nat, j: nat)
    requires Plan(pairs) && i <= j <= |pairs|
    ensures Plan(pairs[i..j])
    ensures forall q | q in pairs[i..j] :: q in pairs
  {
  }

  /** The requests so far sent a prefix of the plan. */
  ghost predicate SentPrefix(sent: seq<Sent>, plan: seq<Pair>) {
    Plan(plan) && |PairsSent(sent)| <= |plan| && PairsSent(sent) == plan[..|PairsSent(sent)|]
  }

  lemma LastRequest(sent: seq<Sent>, plan: seq<Pair>)
    requires SentPrefix(sent, plan) && sent != []
    ensures var n := |sent| - 1;
            var m := |PairsSent(sent[..n])|;
            && SentPrefix(sent[..n], plan) && Plan(sent[n].pairs)
            && m + |sent[n].pairs| == |PairsSent(sent)| && sent[n].pairs == plan[m..m + |sent[n].pairs|]
            && forall q | q in sent[n].pairs :: q in plan
  {
    var n := |sent| - 1;
    var front := PairsSent(sent[..n]);
    PrefixSplit(front, sent[n].pairs, plan);
    SubPlan(plan, |front|, |front| + |sent[n].pairs|);
  }

  lemma PrefixSplit(a: seq<Pair>, b: seq<Pair>, plan: seq<Pair>)
    requires |a + b| <= |plan| && a + b == plan[..|a + b|]
    ensures a == plan[..|a|] && b == plan[|a|..|a| + |b|]
  {
    assert a == (a + b)[..|a|] && b == (a + b)[|a|..];
  }

  /** A request as a run of the reference. */
  function RunOf(s: Sent): Run {
    Run(s.pairs, ListingOf(s.cache), s.tape)
  }

  lemma ServedIsRun(v: View, s: Sent)
    requires Served(v, s) && Plan(s.pairs)
    ensures s.ending == RenameAll(v, RunOf(s).listing, s.pairs, s.tape, 0) && ListsAll(RunOf(s).listing, v, s.pairs)
  {
    ReadOffAgrees(s.cache, v, s.pairs);
    PlanHasTargets(s.pairs);
    CachedIsReference(v, s.cache, ListingOf(s.cache), s.pairs, s.tape, 0);
  }

  lemma PlanHasTargets(pairs: seq<Pair>)
    requires Plan(pairs)
    ensures Targets(pairs)
  {
    forall i, j | 0 <= i < |pairs| && 0 <= j < |pairs| ensures pairs[i].oldId != pairs[j].newId {
      assert i < j ==> Separate(pairs[i], pairs[j]);
      assert j < i ==> Separate(pairs[j], pairs[i]);
    }
    forall i, j | 0 <= i < j < |pairs| ensures pairs[i].newId != pairs[j].newId {
      assert Separate(pairs[i], pairs[j]);
    }
  }

  function RunsOf(sent: seq<Sent>): seq<Run> {
    seq(|sent|, i requires 0 <= i < |sent| => RunOf(sent[i]))
  }

  /** The requests to one device are a history of runs over the plan. */
  lemma {:induction false} SentIsHistory(v: View, sent: seq<Sent>, plan: seq<Pair>)
    requires SentPrefix(sent, plan) && InTurn(v, sent)
    ensures Feasible(v, RunsOf(sent), plan) && ViewAfter(v, sent) == After(v, RunsOf(sent))
  {
    if sent != [] {
      var n := |sent| - 1;
      var front, s := sent[..n], sent[n];
      LastRequest(sent, plan);
      InTurnFront(v, sent);
      SentIsHistory(v, front, plan);
      ServedIsRun(ViewAfter(v, front), s);
      AppendRun(v, RunsOf(front), RunOf(s), plan);
      assert RunsOf(sent) == RunsOf(front) + [RunOf(s)];
    }
  }

  lemma {:induction false} AppendRun(v: View, runs: seq<Run>, run: Run, plan: seq<Pair>)
    requires Feasible(v, runs, plan) && Plan(run.pairs) && ListsAll(run.listing, After(v, runs), run.pairs)
    requires forall p | p in run.pairs :: p in plan
    ensures Feasible(v, runs + [run], plan) && After(v, runs + [run]) == RunView(After(v, runs), run)
    decreases |runs|
  {
    if runs == [] {
      assert runs + [run] == [run] && [run][1..] == [];
    } else {
      AppendRun(RunView(v, runs[0]), runs[1..], run, plan);
      assert (runs + [run])[1..] == runs[1..] + [run];
    }
  }

  /** The old id is gone, and the new one is there unless the device had neither at the start. */
  ghost predicate Renamed(v: View, w: View, p: Pair) {
    p.oldId !in w && (p.newId in w || (p.oldId !in v && p.newId !in v))
  }

  lemma PairSuccessIsTrue(v: View, p: Pair, pulled: Prints, tape: Tape, clock: nat)
    requires p.oldId != p.newId && Lists(pulled, v, p.oldId)
    requires var e := RenamePair(v, p, pulled, tape, clock).end; e.Reported? && e.status.Success()
    ensures Renamed(v, RenamePair(v, p, pulled, tape, clock).view, p)
  {
    if RenamePair(v, p, pulled, tape, clock).end.status.Ok? {
      OkMeansMoved(v, p, pulled, tape, clock);
    }
  }

  /** A success status is right about the device when the run ends. */
  lemma SuccessIsTrue(v: View, run: Run, k: nat)
    requires Plan(run.pairs) && ListsAll(run.listing, v, run.pairs) && k < |run.pairs|
    requires var results := RenameAll(v, run.listing, run.pairs, run.tape, 0).results;
             k < |results| && results[k].status.Success()
    ensures Renamed(v, RunView(v, run), run.pairs[k])
  {
    var p := run.pairs[k];
    var reached, w, at := RunIsLocal(v, run.listing, run.pairs, run.tape, 0, k);
    PairSuccessIsTrue(w, p, PulledFor(run.listing, p.oldId), run.tape, at);
  }

  /** No new user can be made for the pair: its old user's name sanitises to empty. */
  predicate Unnameable(v: View, p: Pair) {
    p.oldId in v && p.newId !in v && SafeName(v[p.oldId].user.name) == ""
  }

  /** In a failure-free run exactly the pairs that cannot be named are not successes. */
  lemma QuietSuccessIff(v: View, run: Run, k: nat)
    requires Plan(run.pairs) && ListsAll(run.listing, v, run.pairs) && k < |run.pairs| && FailureFree(run.tape, 0)
    ensures var end := RenameAll(v, run.listing, run.pairs, run.tape, 0);
            !end.died && k < |end.results| && (end.results[k].status.Success() <==> !Unnameable(v, run.pairs[k]))
  {
    var p := run.pairs[k];
    var reached, w, at := RunIsLocal(v, run.listing, run.pairs, run.tape, 0, k);
    FailureFreeRun(v, run.listing, run.pairs, run.tape, 0);
    FailureFreeStatus(w, p, PulledFor(run.listing, p.oldId), run.tape, at);
  }

  lemma FailureFreeStatus(v: View, p: Pair, pulled: Prints, tape: Tape, clock: nat)
    requires FailureFree(tape, clock)
    ensures var e := RenamePair(v, p, pulled, tape, clock).end;
            e.Reported? && (e.status.Success() <==> !Unnameable(v, p))
  {
    CopyCompletes(v, p.newId, pulled, tape, clock);
    CopyClock(v, p.newId, pulled, tape, clock);
    if p.oldId in v {
      var start := v[p.newId := Slot(NewUser(v[p.oldId].user, p.newId), map[])];
      CopyCompletes(start, p.newId, pulled, tape, clock + 1);
      CopyClock(start, p.newId, pulled, tape, clock + 1);
    }
  }

  /** An id no pair names is left alone. */
  lemma {:induction false} RestSame(v: View, cache: Cache, pairs: seq<Pair>, tape: Tape, clock: nat, id: string)
    requires forall q | q in pairs :: q.oldId != id && q.newId != id
    ensures SameAt(CachedAll(v, cache, pairs, tape, clock).view, v, id)
    decreases |pairs|
  {
    if pairs != [] {
      var one := CachedPair(v, cache, pairs[0], tape, clock);
      PairFrame(v, cache, pairs[0], tape, clock);
      assert pairs[0] in pairs && forall q | q in pairs[1..] :: q in pairs;
      if one.end.Reported? {
        RestSame(one.view, one.cache, pairs[1..], tape, one.clock, id);
      }
    }
  }

  /** A request leaves the worker of a pair it does not hold alone. */
  lemma OtherWorkerSame(w: View, s: Sent, plan: seq<Pair>, m: nat, k: nat)
    requires Served(w, s) && Plan(plan) && m + |s.pairs| <= |plan| && s.pairs == plan[m..m + |s.pairs|]
    requires k < |plan| && (k < m || m + |s.pairs| <= k)
    ensures SameForWorker(s.ending.view, w, plan[k])
  {
    var p := plan[k];
    forall q | q in s.pairs ensures q.oldId != p.oldId && q.oldId != p.newId && q.newId != p.oldId && q.newId != p.newId {
      var i :| 0 <= i < |s.pairs| && s.pairs[i] == q;
      assert if k < m then Separate(plan[k], plan[m + i]) else Separate(plan[m + i], plan[k]);
    }
    RestSame(w, s.cache, s.pairs, s.tape, 0, p.oldId);
    RestSame(w, s.cache, s.pairs, s.tape, 0, p.newId);
  }

  lemma {:induction false} UntouchedBefore(v: View, sent: seq<Sent>, plan: seq<Pair>, k: nat)
    requires SentPrefix(sent, plan) && InTurn(v, sent) && |PairsSent(sent)| <= k < |plan|
    ensures SameForWorker(ViewAfter(v, sent), v, plan[k])
  {
    if sent != [] {
      var n := |sent| - 1;
      LastRequest(sent, plan);
      InTurnFront(v, sent);
      UntouchedBefore(v, sent[..n], plan, k);
      OtherWorkerSame(ViewAfter(v, sent[..n]), sent[n], plan, |PairsSent(sent[..n])|, k);
    }
  }

  /** The request that holds a pair finds its two ids as they were at the start. */
  lemma {:induction false} HolderFinds(v: View, sent: seq<Sent>, plan: seq<Pair>, k: nat)
    requires SentPrefix(sent, plan) && InTurn(v, sent) && k < |PairsSent(sent)|
    ensures var c := Holder(sent, k);
            Plan(sent[c].pairs) && SameForWorker(ViewAfter(v, sent[..c]), v, plan[k])
  {
    var n := |sent| - 1;
    LastRequest(sent, plan);
    InTurnFront(v, sent);
    if k < |PairsSent(sent[..n])| {
      HolderFinds(v, sent[..n], plan, k);
      assert sent[..n][..Holder(sent, k)] == sent[..Holder(sent, k)];
    } else {
      UntouchedBefore(v, sent[..n], plan, k);
    }
  }

  /** And it leaves them as they are at the end. */
  lemma {:induction false} HolderLeaves(v: View, sent: seq<Sent>, plan: seq<Pair>, k: nat)
    requires SentPrefix(sent, plan) && InTurn(v, sent) && k < |PairsSent(sent)|
    ensures SameForWorker(ViewAfter(v, sent), sent[Holder(sent, k)].ending.view, plan[k])
  {
    var n := |sent| - 1;
    if k < |PairsSent(sent[..n])| {
      LastRequest(sent, plan);
      InTurnFront(v, sent);
      HolderLeaves(v, sent[..n], plan, k);
      OtherWorkerSame(ViewAfter(v, sent[..n]), sent[n], plan, |PairsSent(sent[..n])|, k);
    }
  }

  /** Nothing failed and nothing was lost. */
  ghost predicate Quiet(s: Sent) {
    FailureFree(s.tape, 0) && !s.lost
  }

  lemma ServedSuccessIsTrue(u: View, s: Sent, j: nat)
    requires Served(u, s) && Plan(s.pairs) && j < |s.pairs| && j < |Answer(s)|
    ensures Answer(s)[j].status.Success() ==> Renamed(u, s.ending.view, s.pairs[j])
    ensures Quiet(s) ==> (Answer(s)[j].status.Success() <==> !Unnameable(u, s.pairs[j]))
  {
    ServedIsRun(u, s);
    if Answer(s)[j].status.Success() {
      SuccessIsTrue(u, RunOf(s), j);
    }
    if Quiet(s) {
      QuietSuccessIff(u, RunOf(s), j);
    }
  }

  /** With distinct old ids: a success is right about the device after all requests, and if nothing fails the
      successes are exactly the pairs whose user could be named. */
  lemma SuccessSentIsTrue(v: View, sent: seq<Sent>, k: nat)
    requires Plan(PairsSent(sent)) && InTurn(v, sent) && k < |PairsSent(sent)|
    ensures k < |Answers(sent)|
    ensures Answers(sent)[k].status.Success() ==> Renamed(v, ViewAfter(v, sent), PairsSent(sent)[k])
    ensures (forall s | s in sent :: Quiet(s)) ==> (Answers(sent)[k].status.Success() <==> !Unnameable(v, PairsSent(sent)[k]))
  {
    var pairs, c := PairsSent(sent), Holder(sent, k);
    assert pairs == pairs[..|pairs|];
    HolderFinds(v, sent, pairs, k);
    HolderLeaves(v, sent, pairs, k);
    HolderHolds(sent, k);
    InTurnIsComplete(v, sent);
    AnswerAt(sent, k);
    assert ServedAt(v, sent, c);
    ServedSuccessIsTrue(ViewAfter(v, sent[..c]), sent[c], PlaceIn(sent, k));
  }
}
