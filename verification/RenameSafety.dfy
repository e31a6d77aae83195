/** What any rename run, cut or failing anywhere, keeps; and what any history of such runs keeps. */
module RenameSafety {
  import opened Common
  import opened BiometricDevice
  import opened RenameReference

  /** Template t is held at finger f by the user id. */
  ghost predicate Holds(v: View, id: string, f: Finger, t: Template) {
    id in v && f in v[id].prints && v[id].prints[f] == t
  }

  /** The worker of pair p holds t at f, under the old id or the new one. */
  ghost predicate WorkerHolds(v: View, p: Pair, f: Finger, t: Template) {
    Holds(v, p.oldId, f, t) || Holds(v, p.newId, f, t)
  }

  ghost predicate WorkerEnrolled(v: View, p: Pair) {
    exists f, t :: WorkerHolds(v, p, f, t) && t.valid
  }

  ghost predicate SameAt(v: View, w: View, id: string) {
    (id in v <==> id in w) && (id in v ==> v[id] == w[id])
  }

  ghost predicate OthersSame(v: View, w: View, ids: set<string>) {
    && (forall i | i in v && i !in ids :: i in w && v[i] == w[i])
    && (forall i | i in w && i !in ids :: i in v)
  }

  ghost predicate SameForWorker(v: View, w: View, p: Pair) {
    SameAt(v, w, p.oldId) && SameAt(v, w, p.newId)
  }

  /** Copying touches the target's templates only, each becoming a pulled one or staying; a completed
      copy has put a pulled template on every pulled finger. */
  lemma {:induction false} CopyKeeps(v: View, id: string, pulled: Prints, tape: Tape, clock: nat)
    requires id in v
    ensures var c := CopyPrints(v, id, pulled, tape, clock);
            && OthersSame(c.view, v, {id})
            && id in c.view && c.view[id].user == v[id].user
            && (forall f, t :: Holds(c.view, id, f, t) ==> Holds(v, id, f, t) || (f, t) in pulled)
            && (forall f | f in v[id].prints :: f in c.view[id].prints)
            && (c.end.AllSaved? ==> c.copied == Fingers(pulled))
            && (c.end.AllSaved? ==>
                  forall f | f in Fingers(pulled) :: f in c.view[id].prints && (f, c.view[id].prints[f]) in pulled)
  {
    if pulled != [] {
      var (f, t) := pulled[0];
      var v1 := if tape(clock).Applied() then WithPrint(v, id, f, t) else v;
      assert pulled == [pulled[0]] + pulled[1..];
      if tape(clock).Done? {
        CopyKeeps(v1, id, pulled[1..], tape, clock + 1);
        var c := CopyPrints(v1, id, pulled[1..], tape, clock + 1);
        assert Holds(c.view, id, f, c.view[id].prints[f]);
      }
    }
  }

  function Fingers(pulled: Prints): seq<Finger> {
    if pulled == [] then [] else [pulled[0].0] + Fingers(pulled[1..])
  }

  lemma {:induction false} FingersOf(pulled: Prints, f: Finger)
    ensures f in Fingers(pulled) <==> exists t :: (f, t) in pulled
  {
    if pulled != [] {
      FingersOf(pulled[1..], f);
      assert pulled == [pulled[0]] + pulled[1..];
      if f == pulled[0].0 { assert (f, pulled[0].1) in pulled; }
    }
  }

  /** One pair, however it ends: other ids untouched; every template of the worker was the worker's
      before; every valid template of the old id is still with the old or already with the new, unless the
      new id had valid templates to begin with, in which case those stay as they were. */
  lemma PairKeeps(v: View, p: Pair, pulled: Prints, tape: Tape, clock: nat)
    requires p.oldId != p.newId && Lists(pulled, v, p.oldId)
    ensures var w := RenamePair(v, p, pulled, tape, clock).view;
            && OthersSame(w, v, {p.oldId, p.newId})
            && (forall f, t :: WorkerHolds(w, p, f, t) ==> WorkerHolds(v, p, f, t))
            && (if p.newId in v && HasValid(v[p.newId]) then SameAt(w, v, p.newId) else
                  forall f, t | Holds(v, p.oldId, f, t) && t.valid :: WorkerHolds(w, p, f, t))
  {
    if p.oldId in v && !(p.newId in v && HasValid(v[p.newId])) &&
       (p.newId in v || (SafeName(v[p.oldId].user.name) != "" && tape(clock).Done?)) {
      var start := if p.newId in v then v else v[p.newId := Slot(NewUser(v[p.oldId].user, p.newId), map[])];
      CopyAndDeleteKeeps(start, p, pulled, tape, if p.newId in v then clock else clock + 1);
    }
  }

  /** The copy-then-delete tail, whose target holds no valid template yet. */
  lemma CopyAndDeleteKeeps(v: View, p: Pair, pulled: Prints, tape: Tape, clock: nat)
    requires p.oldId != p.newId && p.oldId in v && p.newId in v && Lists(pulled, v, p.oldId)
    ensures var r := CopyAndDelete(v, p, pulled, tape, clock);
            && OthersSame(r.view, v, {p.oldId, p.newId})
            && p.newId in r.view && r.view[p.newId].user == v[p.newId].user
            && (forall f, t :: WorkerHolds(r.view, p, f, t) ==> WorkerHolds(v, p, f, t))
            && (forall f, t | Holds(v, p.oldId, f, t) && t.valid :: WorkerHolds(r.view, p, f, t))
            && (r.end.Reported? && r.end.status.Ok? ==>
                  p.oldId !in r.view && forall f, t | Holds(v, p.oldId, f, t) && t.valid :: Holds(r.view, p.newId, f, t))
  {
    CopyKeeps(v, p.newId, pulled, tape, clock);
    var c := CopyPrints(v, p.newId, pulled, tape, clock);
    forall f, t | c.end.AllSaved? && Holds(v, p.oldId, f, t) && t.valid ensures Holds(c.view, p.newId, f, t) {
      assert Held(v, p.oldId, f);
      assert (f, t) in pulled;
      FingersOf(pulled, f);
    }
  }

  /** Whatever fails or dies: a new user there was before keeps its record, and one the pair made has the old user's. */
  lemma RecordIsKept(v: View, p: Pair, pulled: Prints, tape: Tape, clock: nat)
    requires p.oldId != p.newId && p.newId in RenamePair(v, p, pulled, tape, clock).view
    ensures var w := RenamePair(v, p, pulled, tape, clock).view;
            if p.newId in v then w[p.newId].user == v[p.newId].user
            else p.oldId in v && Renames(w[p.newId].user, v[p.oldId].user, p.newId)
  {
    if p.oldId in v {
      NewUserRenames(v[p.oldId].user, p.newId);
      if p.newId in v {
        CopyKeeps(v, p.newId, pulled, tape, clock);
      } else {
        CopyKeeps(v[p.newId := Slot(NewUser(v[p.oldId].user, p.newId), map[])], p.newId, pulled, tape, clock + 1);
      }
    }
  }

  /** A pair is reported Ok only when the old id is gone and the new id holds every valid template it had. */
  lemma OkMeansMoved(v: View, p: Pair, pulled: Prints, tape: Tape, clock: nat)
    requires p.oldId != p.newId && Lists(pulled, v, p.oldId)
    requires var e := RenamePair(v, p, pulled, tape, clock).end; e.Reported? && e.status.Ok?
    ensures var w := RenamePair(v, p, pulled, tape, clock).view;
            && p.oldId !in w && p.newId in w
            && (forall f, t | Holds(v, p.oldId, f, t) && t.valid :: Holds(w, p.newId, f, t))
            && (if p.newId in v then w[p.newId].user == v[p.newId].user else Renames(w[p.newId].user, v[p.oldId].user, p.newId))
  {
    if p.newId in v {
      CopyAndDeleteKeeps(v, p, pulled, tape, clock);
    } else {
      CopyAndDeleteKeeps(v[p.newId := Slot(NewUser(v[p.oldId].user, p.newId), map[])], p, pulled, tape, clock + 1);
    }
    RecordIsKept(v, p, pulled, tape, clock);
  }

  /** The fingers reported as copied are the first pulled ones, short of all if a save raised, and each is on the device. */
  lemma {:induction false} CopySays(v: View, id: string, pulled: Prints, tape: Tape, clock: nat)
    requires id in v
    ensures var c := CopyPrints(v, id, pulled, tape, clock);
            && c.copied <= Fingers(pulled) && (!c.end.AllSaved? ==> c.copied < Fingers(pulled))
            && id in c.view && (c.end.SaveRaised? <==> !c.end.AllSaved? && tape(clock + |c.copied|).Raised?)
            && forall f | f in c.copied :: f in c.view[id].prints && (f, c.view[id].prints[f]) in pulled
  {
    if pulled != [] {
      var (f, t) := pulled[0];
      assert pulled == [pulled[0]] + pulled[1..];
      if tape(clock).Done? {
        var v1 := WithPrint(v, id, f, t);
        CopySays(v1, id, pulled[1..], tape, clock + 1);
        CopyKeeps(v1, id, pulled[1..], tape, clock + 1);
        var c := CopyPrints(v1, id, pulled[1..], tape, clock + 1);
        assert Holds(c.view, id, f, c.view[id].prints[f]);
      }
    }
  }

  /** The old user has valid templates and the new one has, too. */
  predicate BothHave(v: View, p: Pair) {
    p.oldId in v && HasValid(v[p.oldId]) && p.newId in v && HasValid(v[p.newId])
  }

  predicate OnlyNewHas(v: View, p: Pair) {
    p.oldId in v && !HasValid(v[p.oldId]) && p.newId in v && HasValid(v[p.newId])
  }

  /** What each status says of the device before and after the pair. */
  ghost predicate Says(status: Status, v: View, w: View, p: Pair, pulled: Prints) {
    match status
    case AlreadyRenamed => w == v && p.oldId !in v && p.newId in v
    case OldNotFound => w == v && p.oldId !in v && p.newId !in v
    case OkRecovered => OnlyNewHas(v, p) && w == v - {p.oldId}
    case DeleteOldFailedInRecovery => OnlyNewHas(v, p) && (w == v || w == v - {p.oldId})
    case OkResolvedConflict => BothHave(v, p) && w == v - {p.oldId}
    case DeleteOldFailedInConflict => BothHave(v, p) && (w == v || w == v - {p.oldId})
    case NameEmpty => w == v && p.oldId in v && p.newId !in v && Nameless(v[p.oldId].user.name)
    case CreateNewFailed => p.oldId in v && p.newId !in v && !Nameless(v[p.oldId].user.name) && OthersSame(w, v, {p.newId})
    case TemplateSaveFailed(copied) => SameAt(w, v, p.oldId) && p.oldId in v && copied < Fingers(pulled) && Copied(w, p, pulled, copied)
    case Ok(fingers) => p.oldId in v && p.oldId !in w && fingers == Fingers(pulled) && Copied(w, p, pulled, fingers)
    case DeleteOldFailed(copied) => p.oldId in v && copied == Fingers(pulled) && Copied(w, p, pulled, copied)
  }

  /** The new user holds a pulled template at each of these fingers. */
  ghost predicate Copied(w: View, p: Pair, pulled: Prints, fingers: seq<Finger>) {
    p.newId in w && forall f | f in fingers :: f in w[p.newId].prints && (f, w[p.newId].prints[f]) in pulled
  }

  lemma CopyStatusSays(v: View, p: Pair, pulled: Prints, tape: Tape, clock: nat)
    requires p.oldId != p.newId && p.oldId in v && p.newId in v
    ensures var r := CopyAndDelete(v, p, pulled, tape, clock);
            r.end.Reported? ==>
              && Says(r.end.status, v, r.view, p, pulled)
              && (r.end.status.Ok? || r.end.status.TemplateSaveFailed? || r.end.status.DeleteOldFailed?)
  {
    CopySays(v, p.newId, pulled, tape, clock);
    CopyKeeps(v, p.newId, pulled, tape, clock);
  }

  ghost predicate AllDone(tape: Tape, from: nat, to: nat) {
    forall c | from <= c < to :: tape(c).Done?
  }

  lemma {:induction false} CopyStopsAtFailure(v: View, id: string, pulled: Prints, tape: Tape, clock: nat)
    ensures var c := CopyPrints(v, id, pulled, tape, clock);
            match c.end
            case AllSaved => clock <= c.clock && AllDone(tape, clock, c.clock)
            case SaveRaised => clock < c.clock && AllDone(tape, clock, c.clock - 1) && tape(c.clock - 1).Raised?
            case SaveKilled => clock < c.clock && AllDone(tape, clock, c.clock - 1) && tape(c.clock - 1).Killed?
  {
    if pulled != [] && tape(clock).Done? {
      CopyStopsAtFailure(WithPrint(v, id, pulled[0].0, pulled[0].1), id, pulled[1..], tape, clock + 1);
    }
  }

  /** How a pair ends is decided by its last call. */
  predicate EndsBy(end: End, o: Outcome) {
    match o
    case Done => end.Reported? && (end.status.Ok? || end.status.OkRecovered? || end.status.OkResolvedConflict?)
    case Raised(_) => end.Reported? && !end.status.Success() && !end.status.NameEmpty?
    case Killed(_) => end.Died?
  }

  lemma CopyEndsBy(v: View, p: Pair, pulled: Prints, tape: Tape, clock: nat)
    ensures var r := CopyAndDelete(v, p, pulled, tape, clock);
            clock < r.clock && AllDone(tape, clock, r.clock - 1) && EndsBy(r.end, tape(r.clock - 1))
  {
    CopyStopsAtFailure(v, p.newId, pulled, tape, clock);
  }

  /** A pair makes calls until one fails: it is reported as done if and only if all returned, as failed if and only if
      the last one raised, and not at all if and only if the process died in it. A pair that makes none has nothing to
      rename, or no name. */
  lemma LastCallDecides(v: View, p: Pair, pulled: Prints, tape: Tape, clock: nat)
    ensures var r := RenamePair(v, p, pulled, tape, clock);
            if r.clock == clock then
              r.end.Reported? && (r.end.status.AlreadyRenamed? || r.end.status.OldNotFound? || r.end.status.NameEmpty?)
            else clock < r.clock && AllDone(tape, clock, r.clock - 1) && EndsBy(r.end, tape(r.clock - 1))
  {
    if p.oldId in v {
      if p.newId in v {
        CopyEndsBy(v, p, pulled, tape, clock);
      } else {
        CopyEndsBy(v[p.newId := Slot(NewUser(v[p.oldId].user, p.newId), map[])], p, pulled, tape, clock + 1);
      }
    }
  }

  /** Each status a pair can be reported with says what it should of the device, whatever failed. */
  lemma StatusSays(v: View, p: Pair, pulled: Prints, tape: Tape, clock: nat)
    requires p.oldId != p.newId && RenamePair(v, p, pulled, tape, clock).end.Reported?
    ensures var r := RenamePair(v, p, pulled, tape, clock); Says(r.end.status, v, r.view, p, pulled)
  {
    if p.oldId in v {
      NamelessIff(v[p.oldId].user.name);
      if p.newId in v {
        CopyStatusSays(v, p, pulled, tape, clock);
      } else if tape(clock).Done? {
        CopyStatusSays(v[p.newId := Slot(NewUser(v[p.oldId].user, p.newId), map[])], p, pulled, tape, clock + 1);
      }
    }
  }

  lemma PlanTail(pairs: seq<Pair>)
    requires Plan(pairs) && pairs != []
    ensures Plan(pairs[1..]) && forall p | p in pairs[1..] :: p in pairs && Separate(pairs[0], p)
  {
  }

  /** After its first pair, the rest of a run is again a run over pairs whose ids are as they were. */
  lemma RunTail(v: View, listing: Listing, pairs: seq<Pair>, tape: Tape, clock: nat)
    requires Plan(pairs) && ListsAll(listing, v, pairs) && pairs != []
    ensures var w := RenamePair(v, pairs[0], PulledFor(listing, pairs[0].oldId), tape, clock).view;
            && Plan(pairs[1..]) && ListsAll(listing, w, pairs[1..])
            && forall p | p in pairs[1..] :: p in pairs && SameForWorker(w, v, p) && Separate(pairs[0], p)
  {
    PlanTail(pairs);
    PairKeeps(v, pairs[0], PulledFor(listing, pairs[0].oldId), tape, clock);
    var w := RenamePair(v, pairs[0], PulledFor(listing, pairs[0].oldId), tape, clock).view;
    forall p | p in pairs[1..] ensures SameForWorker(w, v, p) && Lists(PulledFor(listing, p.oldId), w, p.oldId) {
      assert Lists(PulledFor(listing, p.oldId), v, p.oldId);
    }
  }

  /** A run leaves every id it does not name as it was. */
  lemma {:induction false} RunFrame(v: View, listing: Listing, pairs: seq<Pair>, tape: Tape, clock: nat, id: string)
    requires Plan(pairs) && ListsAll(listing, v, pairs)
    requires forall p | p in pairs :: p.oldId != id && p.newId != id
    ensures SameAt(RenameAll(v, listing, pairs, tape, clock).view, v, id)
    decreases |pairs|
  {
    if pairs != [] {
      var one := RenamePair(v, pairs[0], PulledFor(listing, pairs[0].oldId), tape, clock);
      PairKeeps(v, pairs[0], PulledFor(listing, pairs[0].oldId), tape, clock);
      RunTail(v, listing, pairs, tape, clock);
      if one.end.Reported? {
        RunFrame(one.view, listing, pairs[1..], tape, one.clock, id);
      }
    }
  }

  /** A run treats each of its pairs as if alone: at some moment w, when the worker's two ids are still as at
      the start, the pair is handled, and what that leaves is what the run leaves; or the run died earlier. */
  lemma {:induction false} RunIsLocal(v: View, listing: Listing, pairs: seq<Pair>, tape: Tape, clock: nat, k: nat)
    returns (reached: bool, w: View, at: nat)
    requires Plan(pairs) && ListsAll(listing, v, pairs) && k < |pairs|
    ensures var run := RenameAll(v, listing, pairs, tape, clock);
            var p := pairs[k];
            var one := RenamePair(w, p, PulledFor(listing, p.oldId), tape, at);
            && clock <= at && SameForWorker(w, v, p) && Lists(PulledFor(listing, p.oldId), w, p.oldId)
            && SameForWorker(run.view, if reached then one.view else v, p)
            && (reached && one.end.Reported? ==>
                  k < |run.results| && run.results[k] == Result(p.oldId, p.newId, one.end.status))
            && (!reached || one.end.Died? ==> run.died && |run.results| <= k)
    decreases |pairs|
  {
    var one := RenamePair(v, pairs[0], PulledFor(listing, pairs[0].oldId), tape, clock);
    RunTail(v, listing, pairs, tape, clock);
    if k == 0 {
      reached, w, at := true, v, clock;
      if one.end.Reported? {
        RunFrame(one.view, listing, pairs[1..], tape, one.clock, pairs[0].oldId);
        RunFrame(one.view, listing, pairs[1..], tape, one.clock, pairs[0].newId);
      }
    } else {
      assert pairs[1..][k - 1] == pairs[k] && pairs[k] in pairs[1..];
      if one.end.Died? {
        reached, w, at := false, v, clock;
      } else {
        ClockAdvances(v, pairs[0], PulledFor(listing, pairs[0].oldId), tape, clock);
        reached, w, at := RunIsLocal(one.view, listing, pairs[1..], tape, one.clock, k - 1);
      }
    }
  }

  /** Within one run, cut anywhere: each valid template the old id had at the start is still with the old id
      or already with the new, except where the new id had valid templates, and those then stay as they
      were; a pair reported Ok has moved every one of them. */
  lemma RunKeepsFingers(v: View, listing: Listing, pairs: seq<Pair>, tape: Tape, clock: nat, k: nat)
    requires Plan(pairs) && ListsAll(listing, v, pairs) && k < |pairs|
    ensures var run := RenameAll(v, listing, pairs, tape, clock);
            var p := pairs[k];
            && (if p.newId in v && HasValid(v[p.newId]) then SameAt(run.view, v, p.newId) else
                  forall f, t | Holds(v, p.oldId, f, t) && t.valid :: WorkerHolds(run.view, p, f, t))
            && (k < |run.results| && run.results[k].status.Ok? ==>
                  p.oldId !in run.view && forall f, t | Holds(v, p.oldId, f, t) && t.valid :: Holds(run.view, p.newId, f, t))
  {
    var p := pairs[k];
    var reached, w, at := RunIsLocal(v, listing, pairs, tape, clock, k);
    var one := RenamePair(w, p, PulledFor(listing, p.oldId), tape, at);
    PairKeeps(w, p, PulledFor(listing, p.oldId), tape, at);
    assert forall f, t :: WorkerHolds(RenameAll(v, listing, pairs, tape, clock).view, p, f, t) <==>
                          WorkerHolds(if reached then one.view else v, p, f, t);
    assert forall f, t :: Holds(w, p.oldId, f, t) <==> Holds(v, p.oldId, f, t);
    if reached && one.end.Reported? && one.end.status.Ok? {
      OkMeansMoved(w, p, PulledFor(listing, p.oldId), tape, at);
    }
  }

  /** Over a whole run, cut or failing anywhere, and so over a failure-free one. */
  lemma RunKeepsRecords(v: View, listing: Listing, pairs: seq<Pair>, tape: Tape, clock: nat, k: nat)
    requires Plan(pairs) && ListsAll(listing, v, pairs) && k < |pairs|
    ensures var w, p := RenameAll(v, listing, pairs, tape, clock).view, pairs[k];
            p.newId in w ==>
              if p.newId in v then w[p.newId].user == v[p.newId].user
              else p.oldId in v && Renames(w[p.newId].user, v[p.oldId].user, p.newId)
  {
    var p := pairs[k];
    var reached, w, at := RunIsLocal(v, listing, pairs, tape, clock, k);
    var one := RenamePair(w, p, PulledFor(listing, p.oldId), tape, at);
    if reached && p.newId in one.view {
      RecordIsKept(w, p, PulledFor(listing, p.oldId), tape, at);
    }
  }

  lemma {:induction false} CopyClock(v: View, id: string, pulled: Prints, tape: Tape, clock: nat)
    ensures CopyPrints(v, id, pulled, tape, clock).clock >= clock
  {
    if pulled != [] && tape(clock).Done? {
      CopyClock(if tape(clock).Applied() then WithPrint(v, id, pulled[0].0, pulled[0].1) else v, id, pulled[1..], tape, clock + 1);
    }
  }

  lemma ClockAdvances(v: View, p: Pair, pulled: Prints, tape: Tape, clock: nat)
    ensures RenamePair(v, p, pulled, tape, clock).clock >= clock
  {
    CopyClock(v, p.newId, pulled, tape, clock);
    if p.oldId in v {
      CopyClock(v[p.newId := Slot(NewUser(v[p.oldId].user, p.newId), map[])], p.newId, pulled, tape, clock + 1);
    }
  }
}
