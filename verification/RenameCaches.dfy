/** The rename run by user ids, as the bridge decides it: by what it read when the connection opened and has noted
    since, not by the device. RenameRefinement says when the bridge does this; here, when it is the reference run. */
module RenameCaches {
  import opened BiometricDevice
  import opened RenameReference
  import opened RenameSafety

  /** What the bridge knows of a user id: its record and its valid templates, as read or as created. */
  datatype Known = Known(user: User, prints: Prints)
  type Cache = map<string, Known>

  datatype CachedRun = CachedRun(view: View, cache: Cache, end: End, clock: nat)

  function ForgetOld(v: View, cache: Cache, id: string, tape: Tape, clock: nat, ok: Status, failed: Status): CachedRun {
    var d := DeleteOld(v, id, tape, clock, ok, failed);
    CachedRun(d.view, if tape(clock).Done? then cache - {id} else cache, d.end, d.clock)
  }

  /** The old user is forgotten once the device confirms its deletion. */
  function CopyAndForget(v: View, cache: Cache, p: Pair, pulled: Prints, tape: Tape, clock: nat): CachedRun {
    var r := CopyAndDelete(v, p, pulled, tape, clock);
    CachedRun(r.view, if r.end.Reported? && r.end.status.Ok? then cache - {p.oldId} else cache, r.end, r.clock)
  }

  function CachedPair(v: View, cache: Cache, p: Pair, tape: Tape, clock: nat): CachedRun {
    if p.oldId !in cache then
      CachedRun(v, cache, Reported(if p.newId in cache then AlreadyRenamed else OldNotFound), clock)
    else if p.newId in cache then
      if cache[p.newId].prints == [] then CopyAndForget(v, cache, p, cache[p.oldId].prints, tape, clock)
      else if cache[p.oldId].prints != [] then
        ForgetOld(v, cache, p.oldId, tape, clock, OkResolvedConflict, DeleteOldFailedInConflict)
      else ForgetOld(v, cache, p.oldId, tape, clock, OkRecovered, DeleteOldFailedInRecovery)
    else if SafeName(cache[p.oldId].user.name) == "" then
      CachedRun(v, cache, Reported(NameEmpty), clock)
    else
      var user := NewUser(cache[p.oldId].user, p.newId);
      var v' := if tape(clock).Applied() then v[p.newId := Slot(user, map[])] else v;
      match tape(clock)
      case Killed(_) => CachedRun(v', cache, Died, clock + 1)
      case Raised(_) => CachedRun(v', cache, Reported(CreateNewFailed), clock + 1)
      case Done => CopyAndForget(v', cache[p.newId := Known(user, [])], p, cache[p.oldId].prints, tape, clock + 1)
  }

  function CachedAll(v: View, cache: Cache, pairs: seq<Pair>, tape: Tape, clock: nat): RunEnd
    decreases |pairs|
  {
    if pairs == [] then RunEnd(v, [], false, clock) else
    var one := CachedPair(v, cache, pairs[0], tape, clock);
    match one.end
    case Died => RunEnd(one.view, [], true, one.clock)
    case Reported(status) =>
      var rest := CachedAll(one.view, one.cache, pairs[1..], tape, one.clock);
      rest.(results := [Result(pairs[0].oldId, pairs[0].newId, status)] + rest.results)
  }

  /** The cache is what reading all users and all valid templates of the device gives. */
  ghost predicate ReadOff(cache: Cache, v: View) {
    && (forall id :: id in cache <==> id in v)
    && (forall id | id in cache :: cache[id].user == v[id].user && Lists(cache[id].prints, v, id))
  }

  lemma {:induction false} CopyFrame(v: View, id: string, pulled: Prints, tape: Tape, clock: nat)
    ensures OthersSame(CopyPrints(v, id, pulled, tape, clock).view, v, {id})
    ensures CopyPrints(v, id, pulled, tape, clock).view.Keys == v.Keys
  {
    if pulled != [] && tape(clock).Done? {
      CopyFrame(WithPrint(v, id, pulled[0].0, pulled[0].1), id, pulled[1..], tape, clock + 1);
    }
  }

  ghost predicate OthersKnown(cache: Cache, was: Cache, ids: set<string>) {
    && (forall id | id in cache && id !in ids :: id in was && cache[id] == was[id])
    && (forall id | id in was && id !in ids :: id in cache)
  }

  /** What a pair touches: its own two ids only, in the view and in the cache; the view gains at most the new one. */
  ghost predicate Framed(r: CachedRun, v: View, cache: Cache, p: Pair) {
    && OthersSame(r.view, v, {p.oldId, p.newId}) && r.view.Keys <= v.Keys + {p.newId}
    && OthersKnown(r.cache, cache, {p.oldId, p.newId})
  }

  lemma CopyAndForgetFrame(v: View, cache: Cache, p: Pair, pulled: Prints, tape: Tape, clock: nat)
    ensures Framed(CopyAndForget(v, cache, p, pulled, tape, clock), v, cache, p)
  {
    CopyFrame(v, p.newId, pulled, tape, clock);
  }

  lemma FrameAfterCreate(r: CachedRun, v: View, cache: Cache, p: Pair, slot: Slot, known: Known)
    requires Framed(r, v[p.newId := slot], cache[p.newId := known], p)
    ensures Framed(r, v, cache, p)
  {
  }

  lemma PairFrame(v: View, cache: Cache, p: Pair, tape: Tape, clock: nat)
    ensures Framed(CachedPair(v, cache, p, tape, clock), v, cache, p)
  {
    var r := CachedPair(v, cache, p, tape, clock);
    if p.oldId in cache {
      var pulled, user := cache[p.oldId].prints, NewUser(cache[p.oldId].user, p.newId);
      if p.newId in cache {
        CopyAndForgetFrame(v, cache, p, pulled, tape, clock);
      } else if SafeName(cache[p.oldId].user.name) != "" && tape(clock).Done? {
        var slot, known := Slot(user, map[]), Known(user, []);
        CopyAndForgetFrame(v[p.newId := slot], cache[p.newId := known], p, pulled, tape, clock + 1);
        FrameAfterCreate(r, v, cache, p, slot, known);
      }
    }
  }

  /** An old user on the device stays known: it is forgotten only when its deletion is confirmed. */
  lemma OneSidedKept(v: View, cache: Cache, p: Pair, tape: Tape, clock: nat)
    requires p.oldId in v ==> p.oldId in cache
    ensures var r := CachedPair(v, cache, p, tape, clock);
            p.oldId != p.newId && p.oldId in r.view ==> p.oldId in r.cache
  {
    if p.oldId in cache {
      var pulled, user := cache[p.oldId].prints, NewUser(cache[p.oldId].user, p.newId);
      CopyFrame(v, p.newId, pulled, tape, clock);
      CopyFrame(v[p.newId := Slot(user, map[])], p.newId, pulled, tape, clock + 1);
    }
  }

  // ---- when the cached run is the reference run ----

  /** The cache is right about id. */
  ghost predicate Agrees(v: View, cache: Cache, listing: Listing, id: string) {
    && (id in cache <==> id in v)
    && (id in cache ==>
          cache[id].user == v[id].user && cache[id].prints == PulledFor(listing, id) && Lists(cache[id].prints, v, id))
  }

  lemma PrintsIffHasValid(v: View, cache: Cache, listing: Listing, id: string)
    requires id in cache && Agrees(v, cache, listing, id)
    ensures cache[id].prints != [] <==> HasValid(v[id])
  {
    if cache[id].prints != [] {
      var (f, t) := cache[id].prints[0];
      assert (f, t) in cache[id].prints;
    }
    if HasValid(v[id]) {
      var f :| f in v[id].prints && v[id].prints[f].valid;
      assert Held(v, id, f) && (f, v[id].prints[f]) in cache[id].prints;
    }
  }

  /** With a cache that is right about its two ids, a pair is the reference pair. */
  lemma PairIsReference(v: View, cache: Cache, listing: Listing, p: Pair, tape: Tape, clock: nat)
    requires Agrees(v, cache, listing, p.oldId) && Agrees(v, cache, listing, p.newId)
    ensures var r, one := CachedPair(v, cache, p, tape, clock), RenamePair(v, p, PulledFor(listing, p.oldId), tape, clock);
            r.view == one.view && r.end == one.end && r.clock == one.clock
  {
    if p.oldId in cache {
      PrintsIffHasValid(v, cache, listing, p.oldId);
      if p.newId in cache {
        PrintsIffHasValid(v, cache, listing, p.newId);
      }
    }
  }

  /** What is right about another id stays right. */
  lemma OthersAgree(v: View, cache: Cache, listing: Listing, p: Pair, tape: Tape, clock: nat, id: string)
    requires Agrees(v, cache, listing, id) && id != p.oldId && id != p.newId
    ensures var r := CachedPair(v, cache, p, tape, clock); Agrees(r.view, r.cache, listing, id)
  {
    PairFrame(v, cache, p, tape, clock);
    var r := CachedPair(v, cache, p, tape, clock);
    assert SameAt(r.view, v, id);
  }

  /** No call raises an error after taking effect. */
  ghost predicate Clean(tape: Tape) {
    forall i: nat :: tape(i) != Raised(true)
  }

  lemma CopyLeavesOld(v: View, cache: Cache, listing: Listing, p: Pair, pulled: Prints, tape: Tape, clock: nat)
    requires Agrees(v, cache, listing, p.oldId) && p.oldId in cache && p.oldId != p.newId && Clean(tape)
    ensures var r := CopyAndForget(v, cache, p, pulled, tape, clock);
            r.end.Reported? ==> Agrees(r.view, r.cache, listing, p.oldId)
  {
    CopyFrame(v, p.newId, pulled, tape, clock);
    var c := CopyPrints(v, p.newId, pulled, tape, clock);
    assert SameAt(c.view, v, p.oldId);
    assert tape(c.clock) != Raised(true);
  }

  /** Without such errors the cache stays right even about the old id. */
  lemma OldAgrees(v: View, cache: Cache, listing: Listing, p: Pair, tape: Tape, clock: nat)
    requires Agrees(v, cache, listing, p.oldId) && p.oldId != p.newId && Clean(tape)
    ensures var r := CachedPair(v, cache, p, tape, clock);
            r.end.Reported? ==> Agrees(r.view, r.cache, listing, p.oldId)
  {
    if p.oldId in cache {
      var pulled, user := cache[p.oldId].prints, NewUser(cache[p.oldId].user, p.newId);
      assert tape(clock) != Raised(true);
      CopyLeavesOld(v, cache, listing, p, pulled, tape, clock);
      if p.newId !in cache {
        CopyLeavesOld(v[p.newId := Slot(user, map[])], cache[p.newId := Known(user, [])], listing, p, pulled, tape, clock + 1);
      }
    }
  }

  ghost predicate AgreesAll(v: View, cache: Cache, listing: Listing, pairs: seq<Pair>) {
    forall p | p in pairs :: Agrees(v, cache, listing, p.oldId) && Agrees(v, cache, listing, p.newId)
  }

  lemma TargetsTail(pairs: seq<Pair>)
    requires Targets(pairs) && pairs != []
    ensures Targets(pairs[1..])
    ensures forall q | q in pairs[1..] ::
              q in pairs && q.newId != pairs[0].oldId && q.newId != pairs[0].newId && q.oldId != pairs[0].newId
  {
    var rest := pairs[1..];
    forall i, j | 0 <= i < |rest| && 0 <= j < |rest| ensures rest[i].oldId != rest[j].newId {
      assert rest[i] == pairs[i + 1] && rest[j] == pairs[j + 1];
    }
    forall q | q in rest
      ensures q in pairs && q.newId != pairs[0].oldId && q.newId != pairs[0].newId && q.oldId != pairs[0].newId
    {
      var i :| 0 <= i < |rest| && rest[i] == q;
      assert q == pairs[i + 1];
    }
  }

  /** The bridge's run is the reference run if old ids do not repeat, or if no call fails after taking effect. */
  lemma {:induction false} CachedIsReference(v: View, cache: Cache, listing: Listing, pairs: seq<Pair>, tape: Tape, clock: nat)
    requires Targets(pairs) && (Plan(pairs) || Clean(tape)) && AgreesAll(v, cache, listing, pairs)
    ensures CachedAll(v, cache, pairs, tape, clock) == RenameAll(v, listing, pairs, tape, clock)
    decreases |pairs|
  {
    if pairs != [] {
      var p := pairs[0];
      var r := CachedPair(v, cache, p, tape, clock);
      assert p in pairs;
      PairIsReference(v, cache, listing, p, tape, clock);
      TargetsTail(pairs);
      if Plan(pairs) { PlanTail(pairs); }
      if r.end.Reported? {
        forall q | q in pairs[1..] ensures Agrees(r.view, r.cache, listing, q.oldId) && Agrees(r.view, r.cache, listing, q.newId) {
          OthersAgree(v, cache, listing, p, tape, clock, q.newId);
          if q.oldId == p.oldId {
            OldAgrees(v, cache, listing, p, tape, clock);
          } else {
            OthersAgree(v, cache, listing, p, tape, clock, q.oldId);
          }
        }
        CachedIsReference(r.view, r.cache, listing, pairs[1..], tape, r.clock);
      }
    }
  }

  /** The listing a cache amounts to. */
  function ListingOf(cache: Cache): Listing {
    map id | id in cache :: cache[id].prints
  }

  lemma ReadOffAgrees(cache: Cache, v: View, pairs: seq<Pair>)
    requires ReadOff(cache, v)
    ensures AgreesAll(v, cache, ListingOf(cache), pairs) && ListsAll(ListingOf(cache), v, pairs)
  {
    forall id ensures Agrees(v, cache, ListingOf(cache), id) && Lists(PulledFor(ListingOf(cache), id), v, id) {
    }
  }
}
