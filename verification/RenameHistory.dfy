/** Histories of rename runs on one device: what survives any of them, when they converge, and what
    they do not promise. */
module RenameHistory {
  import opened BiometricDevice
  import opened RenameReference
  import opened RenameSafety

  datatype Run = Run(pairs: seq<Pair>, listing: Listing, tape: Tape)

  function RunView(v: View, run: Run): View {
    RenameAll(v, run.listing, run.pairs, run.tape, 0).view
  }

  function After(v: View, runs: seq<Run>): View
    decreases |runs|
  {
    if runs == [] then v else After(RunView(v, runs[0]), runs[1..])
  }

  /** Each run takes some of the plan's pairs and lists the templates it finds when it starts. */
  ghost predicate Feasible(v: View, runs: seq<Run>, plan: seq<Pair>)
    decreases |runs|
  {
    runs != [] ==>
      && Plan(runs[0].pairs) && (forall p | p in runs[0].pairs :: p in plan)
      && ListsAll(runs[0].listing, v, runs[0].pairs)
      && Feasible(RunView(v, runs[0]), runs[1..], plan)
  }

  /** The worker loses nothing but fingers it still has under the other id, and gains nothing of others. */
  ghost predicate Protected(v: View, w: View, p: Pair) {
    && (forall f, t :: WorkerHolds(w, p, f, t) ==> WorkerHolds(v, p, f, t))
    && (WorkerEnrolled(v, p) ==> WorkerEnrolled(w, p))
  }

  lemma PairProtects(v: View, p: Pair, pulled: Prints, tape: Tape, clock: nat)
    requires p.oldId != p.newId && Lists(pulled, v, p.oldId)
    ensures Protected(v, RenamePair(v, p, pulled, tape, clock).view, p)
  {
    PairKeeps(v, p, pulled, tape, clock);
    var w := RenamePair(v, p, pulled, tape, clock).view;
    if WorkerEnrolled(v, p) {
      if p.newId in v && HasValid(v[p.newId]) {
        var f :| f in v[p.newId].prints && v[p.newId].prints[f].valid;
        assert WorkerHolds(w, p, f, v[p.newId].prints[f]);
      } else {
        var f, t :| WorkerHolds(v, p, f, t) && t.valid;
        assert Holds(v, p.oldId, f, t);
        assert WorkerHolds(w, p, f, t);
      }
    }
  }

  /** One run, cut or failing anywhere, protects every worker of the plan. */
  lemma RunProtects(v: View, run: Run, plan: seq<Pair>, p: Pair)
    requires Plan(plan) && p in plan && Plan(run.pairs) && ListsAll(run.listing, v, run.pairs)
    requires forall q | q in run.pairs :: q in plan
    ensures Protected(v, RunView(v, run), p)
  {
    if k :| 0 <= k < |run.pairs| && run.pairs[k] == p {
      var reached, w, at := RunIsLocal(v, run.listing, run.pairs, run.tape, 0, k);
      PairProtects(w, p, PulledFor(run.listing, p.oldId), run.tape, at);
      var w' := if reached then RenamePair(w, p, PulledFor(run.listing, p.oldId), run.tape, at).view else v;
      Transport(w, w', v, RunView(v, run), p);
    } else {
      var i :| 0 <= i < |plan| && plan[i] == p;
      forall q | q in run.pairs ensures Separate(p, q) {
        var j :| 0 <= j < |plan| && plan[j] == q;
        assert if i < j then Separate(plan[i], plan[j]) else Separate(plan[j], plan[i]);
      }
      RunFrame(v, run.listing, run.pairs, run.tape, 0, p.oldId);
      RunFrame(v, run.listing, run.pairs, run.tape, 0, p.newId);
      Transport(v, v, v, RunView(v, run), p);
    }
  }

  /** Protection depends on the worker's own two ids only. */
  lemma Transport(v: View, w: View, v': View, w': View, p: Pair)
    requires SameForWorker(v, v', p) && SameForWorker(w', w, p)
    requires Protected(v, w, p) || w == v'
    ensures Protected(v', w', p)
  {
    assert forall f, t :: WorkerHolds(v, p, f, t) <==> WorkerHolds(v', p, f, t);
    assert forall f, t :: WorkerHolds(w, p, f, t) <==> WorkerHolds(w', p, f, t);
  }

  /** Over any history of runs, a worker with a valid template keeps one, and never comes to hold a
      template that was not the worker's own at the start. */
  lemma {:induction false} HistoryProtects(v: View, runs: seq<Run>, plan: seq<Pair>, p: Pair)
    requires Plan(plan) && p in plan && Feasible(v, runs, plan)
    ensures Protected(v, After(v, runs), p)
    decreases |runs|
  {
    if runs != [] {
      RunProtects(v, runs[0], plan, p);
      HistoryProtects(RunView(v, runs[0]), runs[1..], plan, p);
    }
  }

  ghost predicate FailureFree(tape: Tape, clock: nat) {
    forall i: nat | clock <= i :: tape(i).Done?
  }

  function ValidPrints(slot: Slot): map<Finger, Template> {
    map f | f in slot.prints && slot.prints[f].valid :: slot.prints[f]
  }

  /** The rename as one atomic step on the view. */
  function Ideal(v: View, p: Pair): View {
    if p.oldId !in v || (p.newId !in v && SafeName(v[p.oldId].user.name) == "") then v
    else if p.newId in v && HasValid(v[p.newId]) then v - {p.oldId}
    else
      var base := if p.newId in v then v[p.newId] else Slot(NewUser(v[p.oldId].user, p.newId), map[]);
      (v - {p.oldId})[p.newId := base.(prints := base.prints + ValidPrints(v[p.oldId]))]
  }

  function IdealAll(v: View, pairs: seq<Pair>): View
    decreases |pairs|
  {
    if pairs == [] then v else IdealAll(Ideal(v, pairs[0]), pairs[1..])
  }

  lemma {:induction false} CopyCompletes(v: View, id: string, pulled: Prints, tape: Tape, clock: nat)
    requires FailureFree(tape, clock)
    ensures CopyPrints(v, id, pulled, tape, clock).end.AllSaved?
  {
    if pulled != [] {
      CopyCompletes(WithPrint(v, id, pulled[0].0, pulled[0].1), id, pulled[1..], tape, clock + 1);
    }
  }

  /** A listing of the valid templates names exactly the fingers of ValidPrints. */
  lemma ListedIsValid(pulled: Prints, v: View, source: string, f: Finger)
    requires source in v && Lists(pulled, v, source)
    ensures f in Fingers(pulled) <==> f in ValidPrints(v[source])
    ensures forall t | (f, t) in pulled :: f in ValidPrints(v[source]) && t == ValidPrints(v[source])[f]
  {
    FingersOf(pulled, f);
    if f in ValidPrints(v[source]) {
      assert Held(v, source, f) && (f, v[source].prints[f]) in pulled;
    }
  }

  lemma CopiedAt(v: View, id: string, source: string, pulled: Prints, tape: Tape, clock: nat, f: Finger)
    requires id in v && source in v && id != source && Lists(pulled, v, source) && FailureFree(tape, clock)
    ensures var got, want := CopyPrints(v, id, pulled, tape, clock).view, v[id].prints + ValidPrints(v[source]);
            id in got && (f in got[id].prints <==> f in want) && (f in want ==> got[id].prints[f] == want[f])
  {
    CopyCompletes(v, id, pulled, tape, clock);
    CopyKeeps(v, id, pulled, tape, clock);
    ListedIsValid(pulled, v, source, f);
    var got := CopyPrints(v, id, pulled, tape, clock).view;
    if f in got[id].prints { assert Holds(got, id, f, got[id].prints[f]); }
  }

  lemma CopyIsUnion(v: View, id: string, source: string, pulled: Prints, tape: Tape, clock: nat)
    requires id in v && source in v && id != source && Lists(pulled, v, source) && FailureFree(tape, clock)
    ensures var c := CopyPrints(v, id, pulled, tape, clock);
            c.end.AllSaved? && c.view == v[id := v[id].(prints := v[id].prints + ValidPrints(v[source]))]
  {
    CopyCompletes(v, id, pulled, tape, clock);
    CopyKeeps(v, id, pulled, tape, clock);
    var got := CopyPrints(v, id, pulled, tape, clock).view;
    var want := v[id].prints + ValidPrints(v[source]);
    forall f ensures (f in got[id].prints <==> f in want) && (f in want ==> got[id].prints[f] == want[f]) {
      CopiedAt(v, id, source, pulled, tape, clock, f);
    }
    assert got[id].prints == want;
    assert got == v[id := got[id]];
  }

  /** A failure-free pair is the atomic step. */
  lemma FailureFreePair(v: View, p: Pair, pulled: Prints, tape: Tape, clock: nat)
    requires p.oldId != p.newId && Lists(pulled, v, p.oldId) && FailureFree(tape, clock)
    ensures var r := RenamePair(v, p, pulled, tape, clock);
            r.end.Reported? && r.view == Ideal(v, p) && FailureFree(tape, r.clock)
  {
    ClockAdvances(v, p, pulled, tape, clock);
    assert tape(clock).Done?;
    if p.oldId in v && !(p.newId in v && HasValid(v[p.newId])) && (p.newId in v || SafeName(v[p.oldId].user.name) != "") {
      var start := if p.newId in v then v else v[p.newId := Slot(NewUser(v[p.oldId].user, p.newId), map[])];
      CopyIsUnion(start, p.newId, p.oldId, pulled, tape, if p.newId in v then clock else clock + 1);
      CopyClock(start, p.newId, pulled, tape, if p.newId in v then clock else clock + 1);
      assert RenamePair(v, p, pulled, tape, clock).view == Ideal(v, p);
    }
  }

  /** A failure-free run refines the atomic renames, one after the other: no slot reuse, cache or order of
      template saves shows in the result. */
  lemma {:induction false} FailureFreeRun(v: View, listing: Listing, pairs: seq<Pair>, tape: Tape, clock: nat)
    requires Plan(pairs) && ListsAll(listing, v, pairs) && FailureFree(tape, clock)
    ensures var run := RenameAll(v, listing, pairs, tape, clock);
            !run.died && |run.results| == |pairs| && run.view == IdealAll(v, pairs)
    decreases |pairs|
  {
    if pairs != [] {
      FailureFreePair(v, pairs[0], PulledFor(listing, pairs[0].oldId), tape, clock);
      RunTail(v, listing, pairs, tape, clock);
      var one := RenamePair(v, pairs[0], PulledFor(listing, pairs[0].oldId), tape, clock);
      FailureFreeRun(one.view, listing, pairs[1..], tape, one.clock);
    }
  }

  /** Nothing is left to do for p, or nothing can be done: its old id is gone, or no new user can be named. */
  predicate Settled(v: View, p: Pair) {
    p.oldId !in v || (p.newId !in v && SafeName(v[p.oldId].user.name) == "")
  }

  /** A failure-free run settles each of its pairs; one that could be renamed has its old id gone and its new id present. */
  lemma FailureFreeSettles(v: View, run: Run, p: Pair)
    requires Plan(run.pairs) && ListsAll(run.listing, v, run.pairs) && FailureFree(run.tape, 0) && p in run.pairs
    ensures var w := RunView(v, run);
            && Settled(w, p)
            && (if Settled(v, p) then SameForWorker(w, v, p) else p.oldId !in w && p.newId in w)
  {
    var k :| 0 <= k < |run.pairs| && run.pairs[k] == p;
    var reached, x, at := RunIsLocal(v, run.listing, run.pairs, run.tape, 0, k);
    FailureFreeRun(v, run.listing, run.pairs, run.tape, 0);
    FailureFreePair(x, p, PulledFor(run.listing, p.oldId), run.tape, at);
  }

  /** After any history, one failure-free run settles each of its pairs; a worker who was enrolled at the
      start then has a valid template under the new id unless the old id is still there for want of a name. */
  lemma Convergence(v: View, runs: seq<Run>, plan: seq<Pair>, last: Run, p: Pair)
    requires Plan(plan) && Feasible(v, runs, plan)
    requires FailureFree(last.tape, 0) && p in last.pairs && forall q | q in last.pairs :: q in plan
    requires Plan(last.pairs) && ListsAll(last.listing, After(v, runs), last.pairs)
    ensures var w := After(v, runs);
            var w' := RunView(w, last);
            && Settled(w', p)
            && (if Settled(w, p) then SameForWorker(w', w, p) else p.oldId !in w' && p.newId in w')
            && (WorkerEnrolled(v, p) && p.oldId !in w' ==> p.newId in w' && HasValid(w'[p.newId]))
  {
    var w := After(v, runs);
    var w' := RunView(w, last);
    HistoryProtects(v, runs, plan, p);
    FailureFreeSettles(w, last, p);
    RunProtects(w, last, plan, p);
    if WorkerEnrolled(v, p) && p.oldId !in w' {
      var f, t :| WorkerHolds(w', p, f, t) && t.valid;
      assert w'[p.newId].prints[f].valid;
    }
  }

  function SettledStatus(v: View, p: Pair): Status {
    if p.oldId in v then NameEmpty else if p.newId in v then AlreadyRenamed else OldNotFound
  }

  /** A run over settled pairs, whatever the device would answer, makes no request at all. */
  lemma {:induction false} SettledRunIsSilent(v: View, listing: Listing, pairs: seq<Pair>, tape: Tape, clock: nat)
    requires forall p | p in pairs :: Settled(v, p)
    ensures var run := RenameAll(v, listing, pairs, tape, clock);
            && run.view == v && run.clock == clock && !run.died && |run.results| == |pairs|
            && forall k | 0 <= k < |pairs| ::
                 run.results[k] == Result(pairs[k].oldId, pairs[k].newId, SettledStatus(v, pairs[k]))
    decreases |pairs|
  {
    if pairs != [] {
      assert forall p | p in pairs[1..] :: p in pairs;
      assert pairs[0] in pairs;
      SettledRunIsSilent(v, listing, pairs[1..], tape, clock);
      var one := RenamePair(v, pairs[0], PulledFor(listing, pairs[0].oldId), tape, clock);
      assert one == PairRun(v, Reported(SettledStatus(v, pairs[0])), clock);
      var rest := RenameAll(v, listing, pairs[1..], tape, clock).results;
      var results := RenameAll(v, listing, pairs, tape, clock).results;
      assert results == [Result(pairs[0].oldId, pairs[0].newId, SettledStatus(v, pairs[0]))] + rest;
    }
  }

  /** A second run over the same pairs makes no request and reports only already_renamed, old_not_found or,
      for a user that cannot be named, name_empty. */
  lemma SecondRunIsSilent(v: View, run: Run, again: Run)
    requires Plan(run.pairs) && ListsAll(run.listing, v, run.pairs) && FailureFree(run.tape, 0)
    requires forall p | p in again.pairs :: p in run.pairs
    ensures var w := RunView(v, run);
            var second := RenameAll(w, again.listing, again.pairs, again.tape, 0);
            && second.view == w && second.clock == 0 && !second.died && |second.results| == |again.pairs|
            && forall k | 0 <= k < |again.pairs| ::
                 var p := again.pairs[k];
                 && second.results[k] == Result(p.oldId, p.newId, SettledStatus(w, p))
                 && (second.results[k].status.NameEmpty? <==> Settled(v, p) && p.oldId in v)
  {
    forall p | p in again.pairs
      ensures Settled(RunView(v, run), p) && (p.oldId in RunView(v, run) <==> Settled(v, p) && p.oldId in v)
    {
      FailureFreeSettles(v, run, p);
    }
    SettledRunIsSilent(RunView(v, run), again.listing, again.pairs, again.tape, 0);
  }

  /** The worker still has every valid template the old id had. */
  ghost predicate AllCarried(v: View, w: View, p: Pair) {
    forall f, t | Holds(v, p.oldId, f, t) && t.valid :: WorkerHolds(w, p, f, t)
  }

  /** If the new id has valid templates of its own, they are all the old id has. */
  ghost predicate NothingToLose(v: View, p: Pair) {
    p.newId in v && HasValid(v[p.newId]) ==> forall f, t | Holds(v, p.oldId, f, t) && t.valid :: Holds(v, p.newId, f, t)
  }

  lemma PairCarriesIff(v: View, p: Pair, pulled: Prints, tape: Tape, clock: nat)
    requires p.oldId != p.newId && p.oldId in v && Lists(pulled, v, p.oldId) && FailureFree(tape, clock)
    ensures AllCarried(v, RenamePair(v, p, pulled, tape, clock).view, p) <==> NothingToLose(v, p)
  {
    FailureFreePair(v, p, pulled, tape, clock);
    PairKeeps(v, p, pulled, tape, clock);
    var w := RenamePair(v, p, pulled, tape, clock).view;
    if p.newId in v && HasValid(v[p.newId]) {
      assert forall f, t :: WorkerHolds(w, p, f, t) <==> Holds(v, p.newId, f, t);
    }
  }

  lemma CarriesForWorker(v: View, w: View, v': View, w': View, p: Pair)
    requires SameForWorker(v, v', p) && SameForWorker(w, w', p)
    ensures AllCarried(v, w, p) <==> AllCarried(v', w', p)
    ensures NothingToLose(v, p) <==> NothingToLose(v', p)
  {
    assert forall f, t :: Holds(v, p.oldId, f, t) <==> Holds(v', p.oldId, f, t);
    assert forall f, t :: Holds(v, p.newId, f, t) <==> Holds(v', p.newId, f, t);
    assert forall f, t :: WorkerHolds(w, p, f, t) <==> WorkerHolds(w', p, f, t);
  }

  /** Exactly when a failure-free run carries over every valid template of a pair's old id: the new id had none
      of its own yet, or already had them all. The first is the guard of the branch that deletes old unread. */
  lemma FullCarryOverIff(v: View, run: Run, p: Pair)
    requires Plan(run.pairs) && ListsAll(run.listing, v, run.pairs) && FailureFree(run.tape, 0)
    requires p in run.pairs && p.oldId in v
    ensures AllCarried(v, RunView(v, run), p) <==> NothingToLose(v, p)
  {
    var k :| 0 <= k < |run.pairs| && run.pairs[k] == p;
    var reached, x, at := RunIsLocal(v, run.listing, run.pairs, run.tape, 0, k);
    FailureFreeRun(v, run.listing, run.pairs, run.tape, 0);
    var y := RenamePair(x, p, PulledFor(run.listing, p.oldId), run.tape, at).view;
    PairCarriesIff(x, p, PulledFor(run.listing, p.oldId), run.tape, at);
    CarriesForWorker(x, y, v, RunView(v, run), p);
  }

  /** Every call returns until the process dies during call n. */
  function CutAt(n: nat): Tape {
    (i: nat) => if i < n then Done else Killed(false)
  }

  lemma {:induction false} CutCopy(v: View, id: string, pulled: Prints, n: nat, at: nat)
    requires n <= |pulled|
    ensures var c, front := CopyPrints(v, id, pulled, CutAt(at + n), at), CopyPrints(v, id, pulled[..n], CutAt(at + n), at);
            && c.view == front.view && front.end.AllSaved? && front.clock == at + n
            && (n < |pulled| ==> c.end.SaveKilled?)
            && (n == |pulled| ==> c == front)
  {
    if n == 0 {
      assert pulled[..0] == [];
    } else {
      assert pulled[..n][0] == pulled[0] && pulled[..n][1..] == pulled[1..][..n - 1];
      CutCopy(WithPrint(v, id, pulled[0].0, pulled[0].1), id, pulled[1..], n - 1, at + 1);
      if n == |pulled| { assert pulled[..n] == pulled; }
    }
  }

  /** The process dies after creating the new user and saving n > 0 of its templates. What is on the device then
      is the old user and the new one with exactly those n. */
  lemma CutRun(v: View, p: Pair, pulled: Prints, n: nat)
    requires p.oldId in v && p.newId !in v && SafeName(v[p.oldId].user.name) != "" && Lists(pulled, v, p.oldId)
    requires 0 < n <= |pulled|
    ensures var r := RenamePair(v, p, pulled, CutAt(n + 1), 0);
            && r.end.Died? && SameAt(r.view, v, p.oldId) && p.newId in r.view
            && (forall f, t :: Holds(r.view, p.newId, f, t) <==> (f, t) in pulled[..n])
  {
    var created := v[p.newId := Slot(NewUser(v[p.oldId].user, p.newId), map[])];
    CutCopy(created, p.newId, pulled, n, 1);
    CopyKeeps(created, p.newId, pulled[..n], CutAt(n + 1), 1);
    var w := CopyPrints(created, p.newId, pulled[..n], CutAt(n + 1), 1).view;
    forall f, t | (f, t) in pulled[..n] ensures Holds(w, p.newId, f, t) {
      assert (f, t) in pulled;
      FingersOf(pulled[..n], f);
      assert (f, w[p.newId].prints[f]) in pulled;
    }
  }

  /** A run cut after n > 0 saves and then repeated without failure, whatever the repeat reads: the worker is left
      with exactly the templates that were saved before the cut. */
  lemma RetryKeepsTheSaved(v: View, p: Pair, pulled: Prints, n: nat, again: Prints, tape: Tape)
    requires p.oldId in v && p.newId !in v && SafeName(v[p.oldId].user.name) != "" && Lists(pulled, v, p.oldId)
    requires 0 < n <= |pulled| && FailureFree(tape, 0)
    ensures var first := RenamePair(v, p, pulled, CutAt(n + 1), 0);
            var second := RenamePair(first.view, p, again, tape, 0);
            && first.end.Died? && second.end == Reported(OkResolvedConflict)
            && (forall f, t :: WorkerHolds(second.view, p, f, t) <==> (f, t) in pulled[..n])
  {
    CutRun(v, p, pulled, n);
    var w := RenamePair(v, p, pulled, CutAt(n + 1), 0).view;
    var (f, t) := pulled[0];
    assert (f, t) in pulled && (f, t) == pulled[..n][0] && (f, t) in pulled[..n];
    assert Holds(w, p.newId, f, t) && Holds(w, p.oldId, f, t) && t.valid;
    assert w[p.newId].prints[f].valid && w[p.oldId].prints[f].valid;
    assert tape(0).Done?;
    assert RenamePair(w, p, again, tape, 0).view == w - {p.oldId};
  }
}
