/** What repeated old ids cannot lose: an old id together with all new ids paired with it. */
module RenameGroups {
  import opened BiometricDevice
  import opened RenameReference
  import opened RenameSafety
  import opened RenameCaches
  import opened RenameRefinement
  import opened RenameAgreement

  /** The old id and every new id some pair gives it. */
  function Group(plan: seq<Pair>, oldId: string): set<string> {
    {oldId} + set p | p in plan && p.oldId == oldId :: p.newId
  }

  ghost predicate GroupHolds(v: View, ids: set<string>, f: Finger, t: Template) {
    exists id | id in ids :: Holds(v, id, f, t)
  }

  ghost predicate GroupEnrolled(v: View, ids: set<string>) {
    exists id | id in ids :: id in v && HasValid(v[id])
  }

  /** Together the ids gain no template, and if one of them had a valid template, one of them has. */
  ghost predicate GroupProtected(v: View, w: View, ids: set<string>) {
    && (forall f, t | GroupHolds(w, ids, f, t) :: GroupHolds(v, ids, f, t))
    && (GroupEnrolled(v, ids) ==> GroupEnrolled(w, ids))
  }

  /** Within a request that began at v0: what the cache says of the group, against the view. The old user is known as
      long as it is there, with its valid templates; a new user that was read with templates still has one. */
  ghost predicate Guarded(v0: View, v: View, cache: Cache, ids: set<string>, oldId: string) {
    && GroupProtected(v0, v, ids)
    && (oldId in v ==> oldId in cache)
    && (oldId in cache ==> forall row | row in cache[oldId].prints :: row.1.valid && GroupHolds(v0, ids, row.0, row.1))
    && (oldId in v && HasValid(v[oldId]) ==> cache[oldId].prints != [])
    && (forall id | id in ids && id in cache && id != oldId :: id in v && (cache[id].prints != [] ==> HasValid(v[id])))
  }

  /** Copying the old user's templates to one of the group: nothing is gained or lost, and a finished copy leaves the
      target enrolled if there was anything to copy. */
  lemma CopyGuards(v0: View, v: View, cache: Cache, ids: set<string>, p: Pair, tape: Tape, clock: nat)
    requires Guarded(v0, v, cache, ids, p.oldId) && p.oldId in cache && p.newId in v && p.newId in ids && p.oldId != p.newId
    ensures var c := CopyPrints(v, p.newId, cache[p.oldId].prints, tape, clock);
            && OthersSame(c.view, v, {p.newId}) && p.newId in c.view && GroupProtected(v0, c.view, ids)
            && (HasValid(v[p.newId]) ==> HasValid(c.view[p.newId]))
            && (c.end.AllSaved? && cache[p.oldId].prints != [] ==> HasValid(c.view[p.newId]))
  {
    var pulled := cache[p.oldId].prints;
    var c := CopyPrints(v, p.newId, pulled, tape, clock);
    CopyKeeps(v, p.newId, pulled, tape, clock);
    if HasValid(v[p.newId]) {
      var f :| f in v[p.newId].prints && v[p.newId].prints[f].valid;
      assert Holds(c.view, p.newId, f, c.view[p.newId].prints[f]);
    }
    if c.end.AllSaved? && pulled != [] {
      var f := pulled[0].0;
      assert f in Fingers(pulled) && (f, c.view[p.newId].prints[f]) in pulled;
    }
    forall f, t | GroupHolds(c.view, ids, f, t) ensures GroupHolds(v0, ids, f, t) {
      var id :| id in ids && Holds(c.view, id, f, t);
      if id != p.newId || Holds(v, id, f, t) {
        assert Holds(v, id, f, t) && GroupHolds(v, ids, f, t);
      } else {
        assert (f, t) in pulled;
      }
    }
    if GroupEnrolled(v, ids) {
      var id :| id in ids && id in v && HasValid(v[id]);
      assert id in c.view && HasValid(c.view[id]);
    }
  }

  /** The old user may go once another of the group is enrolled, or had nothing valid. */
  lemma DeleteProtects(v0: View, v: View, ids: set<string>, p: Pair)
    requires GroupProtected(v0, v, ids) && p.newId in ids && p.oldId != p.newId && p.newId in v
    requires p.oldId in v && HasValid(v[p.oldId]) ==> HasValid(v[p.newId])
    ensures GroupProtected(v0, v - {p.oldId}, ids)
  {
    var w := v - {p.oldId};
    forall f, t | GroupHolds(w, ids, f, t) ensures GroupHolds(v, ids, f, t) {
      var id :| id in ids && Holds(w, id, f, t);
      assert Holds(v, id, f, t);
    }
    if GroupEnrolled(v, ids) {
      var id :| id in ids && id in v && HasValid(v[id]);
      var other := if id == p.oldId then p.newId else id;
      assert other in w && HasValid(w[other]);
    }
  }

  lemma DeleteGuards(v0: View, v: View, cache: Cache, ids: set<string>, p: Pair, tape: Tape, clock: nat, ok: Status, failed: Status)
    requires Guarded(v0, v, cache, ids, p.oldId) && p.oldId in cache && p.newId in ids && p.oldId != p.newId && p.newId in v
    requires cache[p.oldId].prints == [] || HasValid(v[p.newId])
    ensures var r := ForgetOld(v, cache, p.oldId, tape, clock, ok, failed); Guarded(v0, r.view, r.cache, ids, p.oldId)
  {
    DeleteProtects(v0, v, ids, p);
  }

  lemma CopyAndForgetGuards(v0: View, v: View, cache: Cache, ids: set<string>, p: Pair, tape: Tape, clock: nat)
    requires Guarded(v0, v, cache, ids, p.oldId) && p.oldId in cache && p.newId in v && p.newId in ids && p.oldId != p.newId
    ensures var r := CopyAndForget(v, cache, p, cache[p.oldId].prints, tape, clock); Guarded(v0, r.view, r.cache, ids, p.oldId)
  {
    var c := CopyPrints(v, p.newId, cache[p.oldId].prints, tape, clock);
    CopyGuards(v0, v, cache, ids, p, tape, clock);
    assert Guarded(v0, c.view, cache, ids, p.oldId);
    if c.end.AllSaved? {
      DeleteGuards(v0, c.view, cache, ids, p, tape, c.clock, Ok(c.copied), DeleteOldFailed(c.copied));
    }
  }

  /** A new user of the group starts with no template. */
  lemma CreateGuards(v0: View, v: View, cache: Cache, ids: set<string>, oldId: string, id: string, user: User)
    requires Guarded(v0, v, cache, ids, oldId) && id !in v && id !in cache && id != oldId
    ensures Guarded(v0, v[id := Slot(user, map[])], cache, ids, oldId)
    ensures Guarded(v0, v[id := Slot(user, map[])], cache[id := Known(user, [])], ids, oldId)
  {
    var w := v[id := Slot(user, map[])];
    forall f, t | GroupHolds(w, ids, f, t) ensures GroupHolds(v, ids, f, t) {
      var i :| i in ids && Holds(w, i, f, t);
      assert Holds(v, i, f, t);
    }
    if GroupEnrolled(v, ids) {
      var i :| i in ids && i in v && HasValid(v[i]);
      assert i in w && HasValid(w[i]);
    }
  }

  /** A pair of the group, cut or failing anywhere. */
  lemma PairGuards(v0: View, v: View, cache: Cache, ids: set<string>, p: Pair, tape: Tape, clock: nat)
    requires Guarded(v0, v, cache, ids, p.oldId) && p.newId in ids && p.oldId != p.newId && (p.newId in v ==> p.newId in cache)
    ensures var r := CachedPair(v, cache, p, tape, clock); Guarded(v0, r.view, r.cache, ids, p.oldId)
  {
    if p.oldId in cache {
      if p.newId in cache {
        if cache[p.newId].prints == [] {
          CopyAndForgetGuards(v0, v, cache, ids, p, tape, clock);
        } else {
          DeleteGuards(v0, v, cache, ids, p, tape, clock, OkResolvedConflict, DeleteOldFailedInConflict);
          DeleteGuards(v0, v, cache, ids, p, tape, clock, OkRecovered, DeleteOldFailedInRecovery);
        }
      } else if SafeName(cache[p.oldId].user.name) != "" {
        var user := NewUser(cache[p.oldId].user, p.newId);
        CreateGuards(v0, v, cache, ids, p.oldId, p.newId, user);
        if tape(clock).Done? {
          var created, known := v[p.newId := Slot(user, map[])], cache[p.newId := Known(user, [])];
          CopyAndForgetGuards(v0, created, known, ids, p, tape, clock + 1);
        }
      }
    }
  }

  /** A pair of another old id. */
  lemma OtherPairGuards(v0: View, v: View, cache: Cache, ids: set<string>, oldId: string, p: Pair, tape: Tape, clock: nat)
    requires Guarded(v0, v, cache, ids, oldId) && oldId in ids && p.oldId !in ids && p.newId !in ids
    ensures var r := CachedPair(v, cache, p, tape, clock); Guarded(v0, r.view, r.cache, ids, oldId)
  {
    PairFrame(v, cache, p, tape, clock);
    var w := CachedPair(v, cache, p, tape, clock).view;
    forall f, t | GroupHolds(w, ids, f, t) ensures GroupHolds(v, ids, f, t) {
      var id :| id in ids && Holds(w, id, f, t);
      assert Holds(v, id, f, t);
    }
    if GroupEnrolled(v, ids) {
      var id :| id in ids && id in v && HasValid(v[id]);
      assert id in w && HasValid(w[id]);
    }
  }

  /** A pair belongs to the group as a whole or not at all. */
  lemma InOrOut(plan: seq<Pair>, oldId: string, p: Pair)
    requires Targets(plan) && p in plan && oldId !in NewIds(plan)
    ensures p.oldId != p.newId
    ensures if p.oldId == oldId then p.newId in Group(plan, oldId) else p.oldId !in Group(plan, oldId) && p.newId !in Group(plan, oldId)
  {
    var i :| 0 <= i < |plan| && plan[i] == p;
    assert plan[i].oldId != plan[i].newId && p.newId in NewIds(plan);
    if p.oldId != oldId {
      forall q | q in plan && q.oldId == oldId ensures q.newId != p.newId && q.newId != p.oldId {
        var j :| 0 <= j < |plan| && plan[j] == q;
        assert i != j && plan[i].oldId != plan[j].newId;
      }
    }
  }

  lemma {:induction false} RunGuards(v0: View, v: View, cache: Cache, pairs: seq<Pair>, tape: Tape, clock: nat, plan: seq<Pair>,
                                     oldId: string)
    requires Targets(plan) && oldId !in NewIds(plan) && NewIdsDistinct(pairs) && forall p | p in pairs :: p in plan
    requires Creatable(v, cache, pairs) && Guarded(v0, v, cache, Group(plan, oldId), oldId)
    ensures GroupProtected(v0, CachedAll(v, cache, pairs, tape, clock).view, Group(plan, oldId))
    decreases |pairs|
  {
    if pairs != [] {
      var p, ids := pairs[0], Group(plan, oldId);
      assert p in pairs;
      InOrOut(plan, oldId, p);
      if p.oldId == oldId {
        PairGuards(v0, v, cache, ids, p, tape, clock);
      } else {
        OtherPairGuards(v0, v, cache, ids, oldId, p, tape, clock);
      }
      StillCreatable(v, cache, pairs, tape, clock);
      var one := CachedPair(v, cache, p, tape, clock);
      if one.end.Reported? {
        RunGuards(v0, one.view, one.cache, pairs[1..], tape, one.clock, plan, oldId);
      }
    }
  }

  lemma ReadOffGuards(v: View, cache: Cache, ids: set<string>, oldId: string)
    requires ReadOff(cache, v) && oldId in ids
    ensures Guarded(v, v, cache, ids, oldId)
  {
    forall id | id in cache ensures id in v && (cache[id].prints != [] <==> HasValid(v[id])) {
      if cache[id].prints != [] {
        var (f, t) := cache[id].prints[0];
        assert (f, t) in cache[id].prints;
      }
      if HasValid(v[id]) {
        var f :| f in v[id].prints && v[id].prints[f].valid;
        assert Held(v, id, f) && (f, v[id].prints[f]) in cache[id].prints;
      }
    }
    if oldId in cache {
      forall row | row in cache[oldId].prints ensures row.1.valid && GroupHolds(v, ids, row.0, row.1) {
        assert (row.0, row.1) in cache[oldId].prints;
        assert Holds(v, oldId, row.0, row.1);
      }
    }
  }

  /** One request, cut or failing anywhere, over pairs whose old ids may repeat: if the old id or one of its new ids
      holds a valid template when the connection opens, one of them does when the request ends, and together they hold
      no template they did not hold. */
  lemma RequestProtects(v: View, s: Sent, plan: seq<Pair>, oldId: string)
    requires Served(v, s) && Targets(plan) && oldId !in NewIds(plan)
    requires NewIdsDistinct(s.pairs) && forall p | p in s.pairs :: p in plan
    ensures GroupProtected(v, s.ending.view, Group(plan, oldId))
  {
    ReadOffGuards(v, s.cache, Group(plan, oldId), oldId);
    RunGuards(v, v, s.cache, s.pairs, s.tape, 0, plan, oldId);
  }

  /** Over any requests for any of these pairs, however often they are repeated. */
  lemma {:induction false} RequestsProtect(v: View, sent: seq<Sent>, plan: seq<Pair>, oldId: string)
    requires InTurn(v, sent) && Targets(plan) && oldId !in NewIds(plan)
    requires forall s | s in sent :: NewIdsDistinct(s.pairs) && forall p | p in s.pairs :: p in plan
    ensures GroupProtected(v, ViewAfter(v, sent), Group(plan, oldId))
  {
    if sent != [] {
      var n := |sent| - 1;
      InTurnFront(v, sent);
      RequestsProtect(v, sent[..n], plan, oldId);
      RequestProtects(ViewAfter(v, sent[..n]), sent[n], plan, oldId);
    }
  }
}
