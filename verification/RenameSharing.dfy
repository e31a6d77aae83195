/** What repeated old ids do. Nothing makes old ids distinct in the cloud: the script checks new ids only. */
module RenameSharing {
  import opened BiometricDevice
  import opened RenameReference
  import opened RenameSafety
  import opened RenameHistory
  import opened RenameCaches
  import opened RenameAgreement

  /** The pair's user is there and can be renamed. */
  predicate Renameable(v: View, p: Pair) {
    p.oldId in v && (p.newId in v || SafeName(v[p.oldId].user.name) != "")
  }

  /** An earlier pair renames the user that pair k names too. */
  predicate TakenBefore(v: View, pairs: seq<Pair>, k: nat)
    requires k < |pairs|
  {
    exists j :: 0 <= j < k && pairs[j].oldId == pairs[k].oldId && Renameable(v, pairs[j])
  }

  /** A failure-free pair, whatever it was told of templates: who is there afterwards, and what it reports. */
  lemma QuietPair(v: View, p: Pair, pulled: Prints, tape: Tape, clock: nat)
    requires p.oldId != p.newId && FailureFree(tape, clock)
    ensures var r := RenamePair(v, p, pulled, tape, clock);
            && r.end.Reported? && FailureFree(tape, r.clock) && OthersSame(r.view, v, {p.oldId, p.newId})
            && (p.oldId in r.view <==> p.oldId in v && !Renameable(v, p))
            && (p.newId in r.view <==> p.newId in v || Renameable(v, p))
            && (p.oldId in v && !Renameable(v, p) ==> r.view == v)
            && (r.end.status.Success() <==> p.oldId !in v || Renameable(v, p))
  {
    ClockAdvances(v, p, pulled, tape, clock);
    FailureFreeStatus(v, p, pulled, tape, clock);
    assert tape(clock).Done?;
    if Renameable(v, p) && !(p.newId in v && HasValid(v[p.newId])) {
      var start := if p.newId in v then v else v[p.newId := Slot(NewUser(v[p.oldId].user, p.newId), map[])];
      var at := if p.newId in v then clock else clock + 1;
      QuietCopy(start, p, pulled, tape, at);
    }
  }

  lemma QuietCopy(v: View, p: Pair, pulled: Prints, tape: Tape, clock: nat)
    requires p.oldId != p.newId && p.newId in v && FailureFree(tape, clock)
    ensures var r := CopyAndDelete(v, p, pulled, tape, clock);
            r.view.Keys == v.Keys - {p.oldId} && OthersSame(r.view, v, {p.oldId, p.newId})
  {
    CopyCompletes(v, p.newId, pulled, tape, clock);
    CopyClock(v, p.newId, pulled, tape, clock);
    CopyFrame(v, p.newId, pulled, tape, clock);
    assert tape(CopyPrints(v, p.newId, pulled, tape, clock).clock).Done?;
  }

  /** After the first pair, a later one finds its new id as it was, and its old id unless the first took it. */
  lemma LaterPair(v: View, pairs: seq<Pair>, pulled: Prints, tape: Tape, clock: nat, k: nat)
    requires Targets(pairs) && 0 < k < |pairs| && FailureFree(tape, clock)
    ensures var w := RenamePair(v, pairs[0], pulled, tape, clock).view;
            var p := pairs[k];
            && (p.newId in w <==> p.newId in v)
            && (if p.oldId == pairs[0].oldId && Renameable(v, pairs[0]) then p.oldId !in w else SameAt(w, v, p.oldId))
  {
    assert pairs[0].oldId != pairs[0].newId;
    QuietPair(v, pairs[0], pulled, tape, clock);
    assert pairs[k].oldId != pairs[0].newId && pairs[0].oldId != pairs[k].newId && pairs[0].newId != pairs[k].newId;
  }

  lemma TakenLater(v: View, pairs: seq<Pair>, pulled: Prints, tape: Tape, clock: nat, k: nat)
    requires Targets(pairs) && 0 < k < |pairs| && FailureFree(tape, clock)
    ensures var w := RenamePair(v, pairs[0], pulled, tape, clock).view;
            if pairs[0].oldId == pairs[k].oldId && Renameable(v, pairs[0]) then pairs[k].oldId !in w
            else
              && (TakenBefore(w, pairs[1..], k - 1) <==> TakenBefore(v, pairs, k))
              && (Renameable(w, pairs[k]) <==> Renameable(v, pairs[k]))
  {
    var w, rest := RenamePair(v, pairs[0], pulled, tape, clock).view, pairs[1..];
    LaterPair(v, pairs, pulled, tape, clock, k);
    if !(pairs[0].oldId == pairs[k].oldId && Renameable(v, pairs[0])) {
      forall j | 0 < j < k && pairs[j].oldId == pairs[k].oldId
        ensures Renameable(w, pairs[j]) <==> Renameable(v, pairs[j])
      {
        LaterPair(v, pairs, pulled, tape, clock, j);
      }
      if TakenBefore(v, pairs, k) {
        var j :| 0 <= j < k && pairs[j].oldId == pairs[k].oldId && Renameable(v, pairs[j]);
        assert rest[j - 1] == pairs[j];
      }
      if TakenBefore(w, rest, k - 1) {
        var j :| 0 <= j < k - 1 && rest[j].oldId == rest[k - 1].oldId && Renameable(w, rest[j]);
        assert pairs[j + 1] == rest[j];
      }
    }
  }

  lemma {:induction false} RestLeaves(v: View, listing: Listing, pairs: seq<Pair>, tape: Tape, clock: nat, id: string)
    requires Targets(pairs) && FailureFree(tape, clock) && forall q | q in pairs :: q.oldId != id && q.newId != id
    ensures var run := RenameAll(v, listing, pairs, tape, clock);
            !run.died && (id in run.view <==> id in v)
    decreases |pairs|
  {
    if pairs != [] {
      assert pairs[0].oldId != pairs[0].newId && pairs[0] in pairs;
      QuietPair(v, pairs[0], PulledFor(listing, pairs[0].oldId), tape, clock);
      TargetsTail(pairs);
      var one := RenamePair(v, pairs[0], PulledFor(listing, pairs[0].oldId), tape, clock);
      RestLeaves(one.view, listing, pairs[1..], tape, one.clock, id);
    }
  }

  /** Whether pair k succeeds, and whether its new id is there at the end. */
  ghost predicate SharedAt(run: RunEnd, v: View, pairs: seq<Pair>, k: nat)
    requires k < |pairs|
  {
    var p := pairs[k];
    && !run.died && k < |run.results|
    && (run.results[k].status.Success() <==> p.oldId !in v || TakenBefore(v, pairs, k) || Renameable(v, p))
    && (p.newId in run.view <==> p.newId in v || (Renameable(v, p) && !TakenBefore(v, pairs, k)))
    && (TakenBefore(v, pairs, k) || Renameable(v, p) ==> p.oldId !in run.view)
  }

  /** What is gone stays gone, unless a pair brings it as its new id. */
  lemma {:induction false} QuietGone(v: View, listing: Listing, pairs: seq<Pair>, tape: Tape, clock: nat, id: string)
    requires Targets(pairs) && FailureFree(tape, clock) && id !in v && forall q | q in pairs :: q.newId != id
    ensures id !in RenameAll(v, listing, pairs, tape, clock).view
    decreases |pairs|
  {
    if pairs != [] {
      assert pairs[0].oldId != pairs[0].newId && pairs[0] in pairs;
      QuietPair(v, pairs[0], PulledFor(listing, pairs[0].oldId), tape, clock);
      TargetsTail(pairs);
      var one := RenamePair(v, pairs[0], PulledFor(listing, pairs[0].oldId), tape, clock);
      QuietGone(one.view, listing, pairs[1..], tape, one.clock, id);
    }
  }

  lemma FirstShared(v: View, listing: Listing, pairs: seq<Pair>, tape: Tape, clock: nat)
    requires Targets(pairs) && pairs != [] && FailureFree(tape, clock)
    ensures SharedAt(RenameAll(v, listing, pairs, tape, clock), v, pairs, 0)
  {
    var pulled := PulledFor(listing, pairs[0].oldId);
    var one := RenamePair(v, pairs[0], pulled, tape, clock);
    assert pairs[0].oldId != pairs[0].newId;
    QuietPair(v, pairs[0], pulled, tape, clock);
    TargetsTail(pairs);
    RestLeaves(one.view, listing, pairs[1..], tape, one.clock, pairs[0].newId);
    if Renameable(v, pairs[0]) {
      TailNewIds(pairs, 0);
      QuietGone(one.view, listing, pairs[1..], tape, one.clock, pairs[0].oldId);
    }
    assert !TakenBefore(v, pairs, 0);
  }

  lemma LaterShared(v: View, listing: Listing, pairs: seq<Pair>, tape: Tape, clock: nat, k: nat)
    requires Targets(pairs) && 0 < k < |pairs| && FailureFree(tape, clock)
    requires var one := RenamePair(v, pairs[0], PulledFor(listing, pairs[0].oldId), tape, clock);
             one.end.Reported? && SharedAt(RenameAll(one.view, listing, pairs[1..], tape, one.clock), one.view, pairs[1..], k - 1)
    ensures SharedAt(RenameAll(v, listing, pairs, tape, clock), v, pairs, k)
  {
    var pulled := PulledFor(listing, pairs[0].oldId);
    LaterPair(v, pairs, pulled, tape, clock, k);
    TakenLater(v, pairs, pulled, tape, clock, k);
    if pairs[0].oldId == pairs[k].oldId && Renameable(v, pairs[0]) {
      var one := RenamePair(v, pairs[0], pulled, tape, clock);
      assert pairs[0].oldId != pairs[0].newId;
      QuietPair(v, pairs[0], pulled, tape, clock);
      TargetsTail(pairs);
      TailNewIds(pairs, k);
      QuietGone(one.view, listing, pairs[1..], tape, one.clock, pairs[k].oldId);
    }
  }

  lemma TailNewIds(pairs: seq<Pair>, k: nat)
    requires Targets(pairs) && k < |pairs|
    ensures forall q | q in pairs[1..] :: q.newId != pairs[k].oldId
  {
    forall q | q in pairs[1..] ensures q.newId != pairs[k].oldId {
      var i :| 0 <= i < |pairs[1..]| && pairs[1..][i] == q;
      assert pairs[i + 1] == q && pairs[k].oldId != pairs[i + 1].newId;
    }
  }

  /** A failure-free run over pairs whose old ids may repeat: which pairs succeed, and whose new id is there. */
  lemma {:induction false} SharedRun(v: View, listing: Listing, pairs: seq<Pair>, tape: Tape, clock: nat, k: nat)
    requires Targets(pairs) && k < |pairs| && FailureFree(tape, clock)
    ensures SharedAt(RenameAll(v, listing, pairs, tape, clock), v, pairs, k)
    decreases |pairs|
  {
    if k == 0 {
      FirstShared(v, listing, pairs, tape, clock);
    } else {
      var pulled := PulledFor(listing, pairs[0].oldId);
      var one := RenamePair(v, pairs[0], pulled, tape, clock);
      assert pairs[0].oldId != pairs[0].newId;
      QuietPair(v, pairs[0], pulled, tape, clock);
      TargetsTail(pairs);
      SharedRun(one.view, listing, pairs[1..], tape, one.clock, k - 1);
      LaterShared(v, listing, pairs, tape, clock, k);
    }
  }

  lemma QuietIsReference(v: View, cache: Cache, pairs: seq<Pair>, tape: Tape)
    requires ReadOff(cache, v) && Targets(pairs) && FailureFree(tape, 0)
    ensures CachedAll(v, cache, pairs, tape, 0) == RenameAll(v, ListingOf(cache), pairs, tape, 0)
  {
    assert Clean(tape) by {
      forall i: nat ensures tape(i) != Raised(true) {
        assert tape(i).Done?;
      }
    }
    ReadOffAgrees(cache, v, pairs);
    CachedIsReference(v, cache, ListingOf(cache), pairs, tape, 0);
  }

  /** Exactly when the success of pair k means what it should, in a failure-free run of the bridge: its new id is
      there already, or no earlier pair renames its old user. Otherwise the user went to the earlier pair's new id,
      this pair finds nobody, and that counts as a success. */
  lemma SuccessIsTrueIff(v: View, cache: Cache, pairs: seq<Pair>, tape: Tape, k: nat)
    requires ReadOff(cache, v) && Targets(pairs) && k < |pairs| && FailureFree(tape, 0)
    ensures var run := CachedAll(v, cache, pairs, tape, 0);
            && !run.died && k < |run.results|
            && ((run.results[k].status.Success() ==> pairs[k].newId in run.view || pairs[k].oldId !in v)
                <==> pairs[k].newId in v || !TakenBefore(v, pairs, k))
  {
    QuietIsReference(v, cache, pairs, tape);
    SharedRun(v, ListingOf(cache), pairs, tape, 0, k);
  }

  /** Then the worker of pair k is left under neither id, and is reported as a success. */
  lemma SharedWorkerIsGone(v: View, cache: Cache, pairs: seq<Pair>, tape: Tape, k: nat)
    requires ReadOff(cache, v) && Targets(pairs) && k < |pairs| && FailureFree(tape, 0)
    requires TakenBefore(v, pairs, k) && pairs[k].newId !in v
    ensures var run := CachedAll(v, cache, pairs, tape, 0);
            && k < |run.results| && run.results[k].status.Success()
            && pairs[k].oldId !in run.view && pairs[k].newId !in run.view && !WorkerEnrolled(run.view, pairs[k])
  {
    QuietIsReference(v, cache, pairs, tape);
    SharedRun(v, ListingOf(cache), pairs, tape, 0, k);
  }
}
