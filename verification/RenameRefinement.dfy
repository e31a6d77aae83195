/** On a device that holds each user id in one slot, the bridge's run is the cached run: slot numbers, their reuse and
    the three tables do not show. */
module RenameRefinement {
  import opened BiometricDevice
  import opened RenameReference
  import opened RenameCaches
  import opened RenameSlots

  /** The tables with the slot numbers forgotten. */
  function CacheOf(t: Tables): Cache {
    map id | id in t.byUserId :: Known(t.byUserId[id].user, PulledAt(t.templates, t.byUserId[id].uid))
  }

  /** The device shows v, and each row of a user in v names the user's slot. */
  ghost predicate Consistent(dev: Device, v: View, t: Tables) {
    && Fits(dev, t) && Shows(dev, v)
    && forall id | id in t.byUserId && id in v :: Occupies(dev, t.byUserId[id].uid, id)
  }

  lemma {:induction false} TemplatesListed(rows: seq<TemplateRow>, uid: Uid, f: Finger, t: Template)
    ensures (f, t) in PulledAt(TemplatesByUid(rows), uid) <==> t.valid && TemplateRow(uid, f, t) in rows
  {
    if rows != [] {
      var front, last := rows[..|rows| - 1], rows[|rows| - 1];
      TemplatesListed(front, uid, f, t);
      assert rows == front + [last];
    }
  }

  lemma OpenedShows(dev: Device, v: View, userRows: seq<UserRow>, templateRows: seq<TemplateRow>, id: string)
    requires Shows(dev, v) && UserRows(dev, userRows) && TemplateRows(dev, templateRows)
    ensures var t := TablesOf(userRows, templateRows);
            && (id in t.byUserId <==> id in v)
            && (id in t.byUserId ==>
                  t.byUserId[id].user == v[id].user && Lists(PulledAt(t.templates, t.byUserId[id].uid), v, id))
  {
    var t := TablesOf(userRows, templateRows);
    if id in v {
      var u :| Occupies(dev, u, id);
      OpenedSlot(dev, userRows, u, id);
    }
    if id in t.byUserId {
      var uid := t.byUserId[id].uid;
      OpenedRow(dev, userRows, id);
      forall f, p ensures (f, p) in PulledAt(t.templates, uid) <==> Held(v, id, f) && v[id].prints[f] == p {
        TemplatesListed(templateRows, uid, f, p);
      }
    }
  }

  lemma OpenedIsReadOff(dev: Device, v: View, userRows: seq<UserRow>, templateRows: seq<TemplateRow>)
    requires Shows(dev, v) && UserRows(dev, userRows) && TemplateRows(dev, templateRows)
    ensures ReadOff(CacheOf(TablesOf(userRows, templateRows)), v)
  {
    var cache := CacheOf(TablesOf(userRows, templateRows));
    forall id ensures id in cache <==> id in v { OpenedShows(dev, v, userRows, templateRows, id); }
    forall id | id in cache ensures cache[id].user == v[id].user && Lists(cache[id].prints, v, id) {
      OpenedShows(dev, v, userRows, templateRows, id);
    }
  }

  /** Tables built from the two reads are consistent, and amount to reading the device off, id by id. */
  lemma OpenedIsConsistent(dev: Device, v: View, userRows: seq<UserRow>, templateRows: seq<TemplateRow>)
    requires Shows(dev, v) && UserRows(dev, userRows) && TemplateRows(dev, templateRows)
    ensures var t := TablesOf(userRows, templateRows); Consistent(dev, v, t) && ReadOff(CacheOf(t), v)
  {
    OpenedFits(dev, userRows, templateRows);
    OpenedIsReadOff(dev, v, userRows, templateRows);
    forall id | id in UsersById(userRows) ensures Occupies(dev, UsersById(userRows)[id].uid, id) {
      OpenedRow(dev, userRows, id);
    }
  }

  lemma ForgottenCache(dev: Device, t: Tables, id: string)
    requires Fits(dev, t) && id in t.byUserId
    ensures CacheOf(Forget(t, id)) == CacheOf(t) - {id}
  {
  }

  /** A deletion keeps the tables consistent, whether they forget the user, as they do once it is confirmed, or not. */
  lemma DeleteConsistent(dev: Device, v: View, t: Tables, id: string, o: Outcome)
    requires Consistent(dev, v, t) && id in t.byUserId
    ensures var dev', v' := DeleteUser(dev, t.byUserId[id].uid, o), if o.Applied() then v - {id} else v;
            Consistent(dev', v', t) && (o.Done? ==> Consistent(dev', v', Forget(t, id)))
  {
    var uid := t.byUserId[id].uid;
    assert RowFits(dev, t, id);
    DeleteFits(dev, t, id, o);
    var dev' := DeleteUser(dev, uid, o);
    if uid in dev.slots && o.Applied() {
      DeleteShows(dev, v, uid);
      assert dev' == DeleteUser(dev, uid, Done);
    } else {
      assert dev'.slots == dev.slots;
      assert id in v ==> Occupies(dev, uid, id);
      assert o.Applied() ==> v - {id} == v;
      assert forall u, i :: Occupies(dev', u, i) <==> Occupies(dev, u, i);
    }
    assert forall u, i :: Occupies(dev', u, i) <==> Occupies(dev, u, i) && !(o.Applied() && u == uid);
  }

  /** Saving templates under a user in the tables is the reference copy. */
  lemma {:induction false} SaveConsistent(dev: Device, v: View, t: Tables, id: string, pulled: Prints, tape: Tape, clock: nat)
    requires Consistent(dev, v, t) && id in t.byUserId
    ensures var c, r := SavePrints(dev, t.byUserId[id].uid, pulled, tape, clock), CopyPrints(v, id, pulled, tape, clock);
            c.copied == r.copied && c.end == r.end && c.clock == r.clock && Consistent(c.dev, r.view, t)
    decreases |pulled|
  {
    if pulled != [] {
      var (f, p) := pulled[0];
      var o := tape(clock);
      OneSaveConsistent(dev, v, t, id, f, p, o);
      if o.Done? {
        SaveConsistent(SaveTemplate(dev, t.byUserId[id].uid, f, p, o), WithPrint(v, id, f, p), t, id, pulled[1..], tape, clock + 1);
      }
    }
  }

  lemma OneSaveConsistent(dev: Device, v: View, t: Tables, id: string, f: Finger, p: Template, o: Outcome)
    requires Consistent(dev, v, t) && id in t.byUserId
    ensures Consistent(SaveTemplate(dev, t.byUserId[id].uid, f, p, o), if o.Applied() then WithPrint(v, id, f, p) else v, t)
  {
    var uid := t.byUserId[id].uid;
    assert RowFits(dev, t, id);
    var dev' := SaveTemplate(dev, uid, f, p, o);
    if uid in dev.slots && o.Applied() {
      SaveShows(dev, v, uid, f, p);
      assert dev' == SaveTemplate(dev, uid, f, p, Done);
    } else {
      assert id in v ==> Occupies(dev, uid, id);
    }
    assert forall u, i :: Occupies(dev', u, i) <==> Occupies(dev, u, i);
    forall i | i in t.byUserId ensures RowFits(dev', t, i) {
      assert RowFits(dev, t, i);
    }
  }

  lemma CreatedCache(dev: Device, t: Tables, user: User)
    requires Fits(dev, t)
    ensures CacheOf(Allocated(t)) == CacheOf(t) && CacheOf(Created(t, user)) == CacheOf(t)[user.userId := Known(user, [])]
  {
    assert FreeFrom(t.used, 1) !in t.templates;
  }

  lemma CreatedOccupies(dev: Device, t: Tables, user: User, o: Outcome, u: Uid, id: string)
    requires FreeFrom(t.used, 1) !in dev.slots
    ensures Occupies(SetUser(dev, FreeFrom(t.used, 1), user, o), u, id) <==>
            Occupies(dev, u, id) || (o.Applied() && u == FreeFrom(t.used, 1) && id == user.userId)
  {
  }

  /** Creating a user in the slot just allocated keeps the tables consistent, with the user, once confirmed, or without. */
  lemma CreateConsistent(dev: Device, v: View, t: Tables, user: User, o: Outcome)
    requires Consistent(dev, v, t) && user.userId !in v && user.userId !in t.byUserId
    ensures var id := user.userId;
            var dev', v' := SetUser(dev, FreeFrom(t.used, 1), user, o), if o.Applied() then v[id := Slot(user, map[])] else v;
            Consistent(dev', v', Allocated(t)) && (o.Done? ==> Consistent(dev', v', Created(t, user)))
  {
    var uid := FreeFrom(t.used, 1);
    CreateFits(dev, t, user, o);
    CreateShows(dev, v, uid, user);
    var dev' := SetUser(dev, uid, user, o);
    assert dev' == if o.Applied() then SetUser(dev, uid, user, Done) else dev;
    forall id | id in t.byUserId && id in v ensures Occupies(dev', t.byUserId[id].uid, id) {
      CreatedOccupies(dev, t, user, o, t.byUserId[id].uid, id);
    }
  }

  /** What the run on slots leaves is what the cached run leaves. */
  ghost predicate Shown(r: SlotRun, c: CachedRun) {
    && r.end == c.end && r.clock == c.clock
    && Shows(r.dev, c.view) && (r.end.Reported? ==> Consistent(r.dev, c.view, r.tables) && CacheOf(r.tables) == c.cache)
  }

  lemma DeleteShown(dev: Device, v: View, t: Tables, id: string, tape: Tape, clock: nat, ok: Status, failed: Status)
    requires Consistent(dev, v, t) && id in t.byUserId
    ensures Shown(DeleteRow(dev, t, id, tape, clock, ok, failed), ForgetOld(v, CacheOf(t), id, tape, clock, ok, failed))
  {
    DeleteConsistent(dev, v, t, id, tape(clock));
    ForgottenCache(dev, t, id);
  }

  lemma SaveAndDeleteShown(dev: Device, v: View, t: Tables, p: Pair, pulled: Prints, tape: Tape, clock: nat)
    requires Consistent(dev, v, t) && p.oldId in t.byUserId && p.newId in t.byUserId
    ensures Shown(SaveAndDelete(dev, t, p, pulled, tape, clock), CopyAndForget(v, CacheOf(t), p, pulled, tape, clock))
  {
    SaveConsistent(dev, v, t, p.newId, pulled, tape, clock);
    var c, r := SavePrints(dev, t.byUserId[p.newId].uid, pulled, tape, clock), CopyPrints(v, p.newId, pulled, tape, clock);
    DeleteShown(c.dev, r.view, t, p.oldId, tape, c.clock, Ok(c.copied), DeleteOldFailed(c.copied));
  }

  /** The user is created in a fresh slot, and either the run goes on with it or the pair ends. */
  lemma CreateShown(dev: Device, v: View, t: Tables, p: Pair, pulled: Prints, user: User, tape: Tape, clock: nat)
    requires Consistent(dev, v, t) && user.userId == p.newId && p.newId !in v && p.oldId in t.byUserId && p.newId !in t.byUserId
    ensures var dev' := SetUser(dev, FreeFrom(t.used, 1), user, tape(clock));
            var v' := if tape(clock).Applied() then v[p.newId := Slot(user, map[])] else v;
            var failed := if tape(clock).Killed? then Died else Reported(CreateNewFailed);
            && Shown(SlotRun(dev', Allocated(t), failed, clock + 1), CachedRun(v', CacheOf(t), failed, clock + 1))
            && (tape(clock).Done? ==>
                  Shown(SaveAndDelete(dev', Created(t, user), p, pulled, tape, clock + 1),
                        CopyAndForget(v', CacheOf(t)[p.newId := Known(user, [])], p, pulled, tape, clock + 1)))
  {
    CreatedCache(dev, t, user);
    CreateConsistent(dev, v, t, user, tape(clock));
    if tape(clock).Done? {
      var dev', v' := SetUser(dev, FreeFrom(t.used, 1), user, Done), v[p.newId := Slot(user, map[])];
      SaveAndDeleteShown(dev', v', Created(t, user), p, pulled, tape, clock + 1);
    }
  }

  lemma AllocatedShown(dev: Device, v: View, t: Tables, end: End, clock: nat)
    requires Consistent(dev, v, t)
    ensures Shown(SlotRun(dev, Allocated(t), end, clock), CachedRun(v, CacheOf(t), end, clock))
  {
    AllocatedFits(dev, t);
    assert CacheOf(Allocated(t)) == CacheOf(t);
  }

  /** One pair, unless its new id is on the device and not in the tables. */
  lemma PairShown(dev: Device, v: View, t: Tables, p: Pair, tape: Tape, clock: nat)
    requires Consistent(dev, v, t) && (p.newId in v ==> p.newId in t.byUserId)
    ensures Shown(SlotPair(dev, t, p, tape, clock), CachedPair(v, CacheOf(t), p, tape, clock))
  {
    if p.oldId in t.byUserId {
      var row := t.byUserId[p.oldId];
      var pulled := PulledAt(t.templates, row.uid);
      if p.newId in t.byUserId {
        if PulledAt(t.templates, t.byUserId[p.newId].uid) == [] {
          SaveAndDeleteShown(dev, v, t, p, pulled, tape, clock);
        } else if pulled == [] {
          DeleteShown(dev, v, t, p.oldId, tape, clock, OkRecovered, DeleteOldFailedInRecovery);
        } else {
          DeleteShown(dev, v, t, p.oldId, tape, clock, OkResolvedConflict, DeleteOldFailedInConflict);
        }
      } else if SafeName(row.user.name) == "" {
        AllocatedShown(dev, v, t, Reported(NameEmpty), clock);
      } else {
        CreateShown(dev, v, t, p, pulled, NewUser(row.user, p.newId), tape, clock);
      }
    }
  }

  /** No new id is on the device without the cache knowing. */
  ghost predicate Creatable(v: View, cache: Cache, pairs: seq<Pair>) {
    forall p | p in pairs && p.newId in v :: p.newId in cache
  }

  lemma StillCreatable(v: View, cache: Cache, pairs: seq<Pair>, tape: Tape, clock: nat)
    requires pairs != [] && NewIdsDistinct(pairs) && Creatable(v, cache, pairs)
    ensures var r := CachedPair(v, cache, pairs[0], tape, clock); Creatable(r.view, r.cache, pairs[1..]) && NewIdsDistinct(pairs[1..])
  {
    PairFrame(v, cache, pairs[0], tape, clock);
    var r := CachedPair(v, cache, pairs[0], tape, clock);
    forall p | p in pairs[1..] && p.newId in r.view ensures p.newId in r.cache {
      var j :| 0 <= j < |pairs[1..]| && pairs[1..][j] == p;
      assert pairs[j + 1] == p && p.newId != pairs[0].newId;
      if p.newId == pairs[0].oldId {
        OneSidedKept(v, cache, pairs[0], tape, clock);
      }
    }
  }

  /** The whole run: with distinct new ids, it is the cached run. */
  lemma {:induction false} AllShown(dev: Device, v: View, t: Tables, pairs: seq<Pair>, tape: Tape, clock: nat)
    requires Consistent(dev, v, t) && NewIdsDistinct(pairs) && Creatable(v, CacheOf(t), pairs)
    ensures var r, c := SlotAll(dev, t, pairs, tape, clock), CachedAll(v, CacheOf(t), pairs, tape, clock);
            Shows(r.dev, c.view) && r.results == c.results && r.died == c.died
    decreases |pairs|
  {
    if pairs != [] {
      assert pairs[0] in pairs;
      PairShown(dev, v, t, pairs[0], tape, clock);
      StillCreatable(v, CacheOf(t), pairs, tape, clock);
      var one, shown := SlotPair(dev, t, pairs[0], tape, clock), CachedPair(v, CacheOf(t), pairs[0], tape, clock);
      if one.end.Reported? {
        AllShown(one.dev, shown.view, one.tables, pairs[1..], tape, one.clock);
      }
    }
  }

  /** What the bridge reads when it opens the connection. */
  function Read(dev: Device, read: Reader): Cache {
    CacheOf(TablesOf(read(dev).0, read(dev).1))
  }

  /** One request on a device that shows v is the cached run, from a cache read off v. */
  lemma HandledIsCached(dev: Device, v: View, pairs: seq<Pair>, read: Reader, tape: Tape)
    requires Shows(dev, v) && Truthful(read) && NewIdsDistinct(pairs)
    ensures var r, c := Handled(dev, pairs, read, tape), CachedAll(v, Read(dev, read), pairs, tape, 0);
            ReadOff(Read(dev, read), v) && Shows(r.dev, c.view) && r.results == c.results && r.died == c.died
  {
    var (userRows, templateRows) := read(dev);
    assert UserRows(dev, userRows) && TemplateRows(dev, templateRows);
    OpenedIsConsistent(dev, v, userRows, templateRows);
    AllShown(dev, v, TablesOf(userRows, templateRows), pairs, tape, 0);
  }
}
