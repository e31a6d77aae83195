/** The bridge's rename run, slot by slot: what it reads, the tables it keeps, the requests it sends. It says what
    happens on any device, also one that lists a user id in two slots, and what that never does. */
module RenameSlots {
  import opened Common
  import opened BiometricDevice
  import opened RenameReference

  datatype UserRow = UserRow(uid: Uid, user: User)
  datatype TemplateRow = TemplateRow(uid: Uid, finger: Finger, template: Template)

  /** The rows the device returns list exactly its users; any order, repetitions allowed. */
  ghost predicate UserRows(dev: Device, rows: seq<UserRow>) {
    forall uid, user :: UserRow(uid, user) in rows <==> uid in dev.slots && dev.slots[uid].user == user
  }

  ghost predicate TemplateRows(dev: Device, rows: seq<TemplateRow>) {
    forall uid, f, t ::
      TemplateRow(uid, f, t) in rows <==> uid in dev.slots && f in dev.slots[uid].prints && dev.slots[uid].prints[f] == t
  }

  /** What reading all users and all templates returns, for each state of the device. */
  type Reader = Device -> (seq<UserRow>, seq<TemplateRow>)

  ghost predicate Truthful(read: Reader) {
    forall dev :: UserRows(dev, read(dev).0) && TemplateRows(dev, read(dev).1)
  }

  // ---- the tables ----

  /** by_user_id, used_uids and templates_by_uid. */
  datatype Tables = Tables(byUserId: map<string, UserRow>, used: set<Uid>, templates: map<Uid, Prints>)

  function UsersById(rows: seq<UserRow>): map<string, UserRow> {
    if rows == [] then map[] else
    var last := rows[|rows| - 1];
    UsersById(rows[..|rows| - 1])[last.user.userId := last]
  }

  /** by_user_id maps exactly the ids read, and each to the last row with that id. */
  lemma {:induction false} LastRowCounts(rows: seq<UserRow>, id: string) returns (j: nat)
    ensures id in UsersById(rows) <==> exists row :: row in rows && row.user.userId == id
    ensures id in UsersById(rows) ==>
              && j < |rows| && UsersById(rows)[id] == rows[j] && rows[j].user.userId == id
              && forall k | j < k < |rows| :: rows[k].user.userId != id
  {
    j := 0;
    if rows != [] {
      var front, last := rows[..|rows| - 1], rows[|rows| - 1];
      assert rows == front + [last];
      if last.user.userId == id {
        assert last in rows;
        j := |front|;
      } else {
        j := LastRowCounts(front, id);
        if row :| row in rows && row.user.userId == id { assert row in front; }
      }
    }
  }

  function UidsOf(rows: seq<UserRow>): set<Uid> {
    set row | row in rows :: row.uid
  }

  function PulledAt(templates: map<Uid, Prints>, uid: Uid): Prints {
    if uid in templates then templates[uid] else []
  }

  /** Each slot's valid templates, in row order. */
  function TemplatesByUid(rows: seq<TemplateRow>): map<Uid, Prints> {
    if rows == [] then map[] else
    var before, last := TemplatesByUid(rows[..|rows| - 1]), rows[|rows| - 1];
    if last.template.valid then before[last.uid := PulledAt(before, last.uid) + [(last.finger, last.template)]] else before
  }

  function TablesOf(userRows: seq<UserRow>, templateRows: seq<TemplateRow>): Tables {
    Tables(UsersById(userRows), UidsOf(userRows), TemplatesByUid(templateRows))
  }

  // ---- the run ----

  datatype SavedRun = SavedRun(dev: Device, copied: seq<Finger>, end: CopyEnd, clock: nat)

  function SavePrints(dev: Device, uid: Uid, pulled: Prints, tape: Tape, clock: nat): SavedRun
    decreases |pulled|
  {
    if pulled == [] then SavedRun(dev, [], AllSaved, clock) else
    var (f, t) := pulled[0];
    var dev' := SaveTemplate(dev, uid, f, t, tape(clock));
    match tape(clock)
    case Raised(_) => SavedRun(dev', [], SaveRaised, clock + 1)
    case Killed(_) => SavedRun(dev', [], SaveKilled, clock + 1)
    case Done =>
      var rest := SavePrints(dev', uid, pulled[1..], tape, clock + 1);
      rest.(copied := [f] + rest.copied)
  }

  datatype SlotRun = SlotRun(dev: Device, tables: Tables, end: End, clock: nat)

  function Forget(t: Tables, id: string): Tables
    requires id in t.byUserId
  {
    var uid := t.byUserId[id].uid;
    Tables(t.byUserId - {id}, t.used - {uid}, t.templates - {uid})
  }

  function DeleteRow(dev: Device, t: Tables, id: string, tape: Tape, clock: nat, ok: Status, failed: Status): SlotRun
    requires id in t.byUserId
  {
    SlotRun(DeleteUser(dev, t.byUserId[id].uid, tape(clock)), if tape(clock).Done? then Forget(t, id) else t,
            match tape(clock) { case Done => Reported(ok) case Raised(_) => Reported(failed) case Killed(_) => Died },
            clock + 1)
  }

  function SaveAndDelete(dev: Device, t: Tables, p: Pair, pulled: Prints, tape: Tape, clock: nat): SlotRun
    requires p.oldId in t.byUserId && p.newId in t.byUserId
  {
    var c := SavePrints(dev, t.byUserId[p.newId].uid, pulled, tape, clock);
    match c.end
    case SaveKilled => SlotRun(c.dev, t, Died, c.clock)
    case SaveRaised => SlotRun(c.dev, t, Reported(TemplateSaveFailed(c.copied)), c.clock)
    case AllSaved => DeleteRow(c.dev, t, p.oldId, tape, c.clock, Ok(c.copied), DeleteOldFailed(c.copied))
  }

  function Allocated(t: Tables): Tables {
    t.(used := t.used + {FreeFrom(t.used, 1)})
  }

  function Created(t: Tables, user: User): Tables {
    Allocated(t).(byUserId := t.byUserId[user.userId := UserRow(FreeFrom(t.used, 1), user)])
  }

  /** The slot is allocated before the name is looked at. */
  function SlotPair(dev: Device, t: Tables, p: Pair, tape: Tape, clock: nat): SlotRun {
    if p.oldId !in t.byUserId then
      SlotRun(dev, t, Reported(if p.newId in t.byUserId then AlreadyRenamed else OldNotFound), clock)
    else
      var row := t.byUserId[p.oldId];
      var pulled := PulledAt(t.templates, row.uid);
      if p.newId in t.byUserId then
        if PulledAt(t.templates, t.byUserId[p.newId].uid) == [] then SaveAndDelete(dev, t, p, pulled, tape, clock)
        else if pulled == [] then DeleteRow(dev, t, p.oldId, tape, clock, OkRecovered, DeleteOldFailedInRecovery)
        else DeleteRow(dev, t, p.oldId, tape, clock, OkResolvedConflict, DeleteOldFailedInConflict)
      else if SafeName(row.user.name) == "" then
        SlotRun(dev, Allocated(t), Reported(NameEmpty), clock)
      else
        var user := NewUser(row.user, p.newId);
        var dev' := SetUser(dev, FreeFrom(t.used, 1), user, tape(clock));
        match tape(clock)
        case Killed(_) => SlotRun(dev', Allocated(t), Died, clock + 1)
        case Raised(_) => SlotRun(dev', Allocated(t), Reported(CreateNewFailed), clock + 1)
        case Done => SaveAndDelete(dev', Created(t, user), p, pulled, tape, clock + 1)
  }

  datatype SlotsEnd = SlotsEnd(dev: Device, results: seq<Result>, died: bool)

  function SlotAll(dev: Device, t: Tables, pairs: seq<Pair>, tape: Tape, clock: nat): SlotsEnd
    decreases |pairs|
  {
    if pairs == [] then SlotsEnd(dev, [], false) else
    var one := SlotPair(dev, t, pairs[0], tape, clock);
    match one.end
    case Died => SlotsEnd(one.dev, [], true)
    case Reported(status) =>
      var rest := SlotAll(one.dev, one.tables, pairs[1..], tape, one.clock);
      rest.(results := [Result(pairs[0].oldId, pairs[0].newId, status)] + rest.results)
  }

  /** What `whole` still has to do is to save pulled[i..] from here on. */
  ghost predicate SavingGoesOn(whole: SavedRun, copied: seq<Finger>, dev: Device, uid: Uid, pulled: Prints, i: nat, tape: Tape,
                               clock: nat) {
    i <= |pulled| &&
    var rest := SavePrints(dev, uid, pulled[i..], tape, clock);
    whole == SavedRun(rest.dev, copied + rest.copied, rest.end, rest.clock)
  }

  lemma SavingStep(whole: SavedRun, copied: seq<Finger>, dev: Device, uid: Uid, pulled: Prints, i: nat, tape: Tape, clock: nat)
    requires i < |pulled| && SavingGoesOn(whole, copied, dev, uid, pulled, i, tape, clock)
    ensures var dev' := SaveTemplate(dev, uid, pulled[i].0, pulled[i].1, tape(clock));
            match tape(clock)
            case Raised(_) => whole == SavedRun(dev', copied, SaveRaised, clock + 1)
            case Killed(_) => whole == SavedRun(dev', copied, SaveKilled, clock + 1)
            case Done => SavingGoesOn(whole, copied + [pulled[i].0], dev', uid, pulled, i + 1, tape, clock + 1)
  {
  }

  /** What `whole` still has to do is to handle pairs[i..] from here on. */
  ghost predicate RunGoesOn(whole: SlotsEnd, results: seq<Result>, dev: Device, t: Tables, pairs: seq<Pair>, i: nat, tape: Tape,
                            clock: nat) {
    i <= |pairs| &&
    var rest := SlotAll(dev, t, pairs[i..], tape, clock);
    whole == SlotsEnd(rest.dev, results + rest.results, rest.died)
  }

  lemma RunStep(whole: SlotsEnd, results: seq<Result>, dev: Device, t: Tables, pairs: seq<Pair>, i: nat, tape: Tape, clock: nat)
    requires i < |pairs| && RunGoesOn(whole, results, dev, t, pairs, i, tape, clock)
    ensures var one := SlotPair(dev, t, pairs[i], tape, clock);
            match one.end
            case Died => whole == SlotsEnd(one.dev, results, true)
            case Reported(status) =>
              RunGoesOn(whole, results + [Result(pairs[i].oldId, pairs[i].newId, status)], one.dev, one.tables, pairs, i + 1,
                        tape, one.clock)
  {
    assert pairs[i..][0] == pairs[i] && pairs[i..][1..] == pairs[i + 1..];
    var one := SlotPair(dev, t, pairs[i], tape, clock);
    if one.end.Reported? {
      var rest := SlotAll(one.dev, one.tables, pairs[i + 1..], tape, one.clock);
      var r := Result(pairs[i].oldId, pairs[i].newId, one.end.status);
      assert results + ([r] + rest.results) == results + [r] + rest.results;
    }
  }

  /** One request, from reading the device to its results. */
  function Handled(dev: Device, pairs: seq<Pair>, read: Reader, tape: Tape): SlotsEnd {
    SlotAll(dev, TablesOf(read(dev).0, read(dev).1), pairs, tape, 0)
  }

  // ---- what holds between tables and device, whatever the device listed ----

  /** The row of id names a taken slot, which holds this user or, after a deletion not confirmed, nobody. */
  ghost predicate RowFits(dev: Device, t: Tables, id: string)
    requires id in t.byUserId
  {
    var uid := t.byUserId[id].uid;
    uid in t.used && (uid in dev.slots ==> Occupies(dev, uid, id))
  }

  ghost predicate Fits(dev: Device, t: Tables) {
    && dev.slots.Keys <= t.used && t.templates.Keys <= t.used
    && (forall id | id in t.byUserId :: RowFits(dev, t, id))
    && (forall i, j | i in t.byUserId && j in t.byUserId && i != j :: t.byUserId[i].uid != t.byUserId[j].uid)
  }

  lemma {:induction false} TemplatesHaveRows(rows: seq<TemplateRow>, uid: Uid)
    requires uid in TemplatesByUid(rows)
    ensures exists row :: row in rows && row.uid == uid
  {
    var front, last := rows[..|rows| - 1], rows[|rows| - 1];
    if uid == last.uid {
      assert last in rows;
    } else {
      TemplatesHaveRows(front, uid);
      var row :| row in front && row.uid == uid;
      assert row in rows;
    }
  }

  lemma OpenedSlot(dev: Device, rows: seq<UserRow>, u: Uid, id: string)
    requires UserRows(dev, rows) && Occupies(dev, u, id)
    ensures id in UsersById(rows) && exists row :: row in rows && row.uid == u
  {
    assert UserRow(u, dev.slots[u].user) in rows;
    var j := LastRowCounts(rows, id);
  }

  lemma OpenedRow(dev: Device, rows: seq<UserRow>, id: string)
    requires UserRows(dev, rows) && id in UsersById(rows)
    ensures var row := UsersById(rows)[id]; Occupies(dev, row.uid, id) && row in rows && dev.slots[row.uid].user == row.user
  {
    var j := LastRowCounts(rows, id);
    var row := rows[j];
    assert UserRow(row.uid, row.user) in rows;
  }

  lemma OpenedTemplates(dev: Device, rows: seq<TemplateRow>, uid: Uid)
    requires TemplateRows(dev, rows) && uid in TemplatesByUid(rows)
    ensures uid in dev.slots
  {
    TemplatesHaveRows(rows, uid);
    var row :| row in rows && row.uid == uid;
    assert TemplateRow(uid, row.finger, row.template) in rows;
  }

  lemma OpenedFits(dev: Device, userRows: seq<UserRow>, templateRows: seq<TemplateRow>)
    requires UserRows(dev, userRows) && TemplateRows(dev, templateRows)
    ensures Fits(dev, TablesOf(userRows, templateRows))
  {
    var t := TablesOf(userRows, templateRows);
    forall uid | uid in dev.slots ensures uid in t.used {
      OpenedSlot(dev, userRows, uid, dev.slots[uid].user.userId);
    }
    forall id | id in t.byUserId ensures RowFits(dev, t, id) && Occupies(dev, t.byUserId[id].uid, id) {
      OpenedRow(dev, userRows, id);
    }
    forall uid | uid in t.templates ensures uid in t.used {
      OpenedTemplates(dev, templateRows, uid);
    }
  }

  // ---- no run writes a user into an occupied slot ----

  lemma DeleteFits(dev: Device, t: Tables, id: string, o: Outcome)
    requires Fits(dev, t) && id in t.byUserId
    ensures Fits(DeleteUser(dev, t.byUserId[id].uid, o), t)
    ensures o.Done? ==> Fits(DeleteUser(dev, t.byUserId[id].uid, o), Forget(t, id))
    ensures forall u :: u in Forget(t, id).used <==> u in t.used && u != t.byUserId[id].uid
  {
    var dev' := DeleteUser(dev, t.byUserId[id].uid, o);
    forall i | i in t.byUserId ensures RowFits(dev', t, i) && (o.Done? && i != id ==> RowFits(dev', Forget(t, id), i)) {
      assert RowFits(dev, t, i);
    }
  }

  /** The slot a user is created in is free on the device, and in no row. */
  lemma CreateFits(dev: Device, t: Tables, user: User, o: Outcome)
    requires Fits(dev, t) && user.userId !in t.byUserId
    ensures var uid := FreeFrom(t.used, 1);
            var dev' := SetUser(dev, uid, user, o);
            && uid !in dev.slots && dev'.replaced == dev.replaced && Fits(dev', Allocated(t))
            && (o.Done? ==> Fits(dev', Created(t, user)))
  {
    var dev' := SetUser(dev, FreeFrom(t.used, 1), user, o);
    forall i | i in t.byUserId ensures RowFits(dev', Allocated(t), i) && (o.Done? ==> RowFits(dev', Created(t, user), i)) {
      assert RowFits(dev, t, i);
    }
  }

  lemma {:induction false} SaveKeeps(dev: Device, uid: Uid, pulled: Prints, tape: Tape, clock: nat)
    ensures var c := SavePrints(dev, uid, pulled, tape, clock);
            && c.dev.replaced == dev.replaced && c.dev.slots.Keys == dev.slots.Keys
            && forall u | u in dev.slots :: c.dev.slots[u].user == dev.slots[u].user
    decreases |pulled|
  {
    if pulled != [] && tape(clock).Done? {
      SaveKeeps(SaveTemplate(dev, uid, pulled[0].0, pulled[0].1, tape(clock)), uid, pulled[1..], tape, clock + 1);
    }
  }

  lemma SaveFits(dev: Device, t: Tables, uid: Uid, pulled: Prints, tape: Tape, clock: nat)
    requires Fits(dev, t)
    ensures Fits(SavePrints(dev, uid, pulled, tape, clock).dev, t)
  {
    SaveKeeps(dev, uid, pulled, tape, clock);
    forall i | i in t.byUserId ensures RowFits(SavePrints(dev, uid, pulled, tape, clock).dev, t, i) {
      assert RowFits(dev, t, i);
    }
  }

  lemma SaveAndDeleteFits(dev: Device, t: Tables, p: Pair, pulled: Prints, tape: Tape, clock: nat)
    requires Fits(dev, t) && p.oldId in t.byUserId && p.newId in t.byUserId
    ensures var r := SaveAndDelete(dev, t, p, pulled, tape, clock);
            Fits(r.dev, r.tables) && r.dev.replaced == dev.replaced
  {
    var c := SavePrints(dev, t.byUserId[p.newId].uid, pulled, tape, clock);
    SaveKeeps(dev, t.byUserId[p.newId].uid, pulled, tape, clock);
    SaveFits(dev, t, t.byUserId[p.newId].uid, pulled, tape, clock);
    DeleteFits(c.dev, t, p.oldId, tape(c.clock));
  }

  lemma PairFits(dev: Device, t: Tables, p: Pair, tape: Tape, clock: nat)
    requires Fits(dev, t)
    ensures var r := SlotPair(dev, t, p, tape, clock);
            Fits(r.dev, r.tables) && r.dev.replaced == dev.replaced
  {
    if p.oldId in t.byUserId {
      var row := t.byUserId[p.oldId];
      var pulled, user := PulledAt(t.templates, row.uid), NewUser(row.user, p.newId);
      DeleteFits(dev, t, p.oldId, tape(clock));
      if p.newId in t.byUserId {
        SaveAndDeleteFits(dev, t, p, pulled, tape, clock);
      } else {
        CreateFits(dev, t, user, tape(clock));
        AllocatedFits(dev, t);
        if tape(clock).Done? {
          SaveAndDeleteFits(SetUser(dev, FreeFrom(t.used, 1), user, Done), Created(t, user), p, pulled, tape, clock + 1);
        }
      }
    }
  }

  lemma AllocatedFits(dev: Device, t: Tables)
    requires Fits(dev, t)
    ensures Fits(dev, Allocated(t))
  {
    forall i | i in t.byUserId ensures RowFits(dev, Allocated(t), i) {
      assert RowFits(dev, t, i);
    }
  }

  lemma {:induction false} AllFits(dev: Device, t: Tables, pairs: seq<Pair>, tape: Tape, clock: nat)
    requires Fits(dev, t)
    ensures SlotAll(dev, t, pairs, tape, clock).dev.replaced == dev.replaced
    decreases |pairs|
  {
    if pairs != [] {
      PairFits(dev, t, pairs[0], tape, clock);
      var one := SlotPair(dev, t, pairs[0], tape, clock);
      AllFits(one.dev, one.tables, pairs[1..], tape, one.clock);
    }
  }

  /** No request, on any device, for any pairs, cut or failing anywhere, sets a user on an occupied slot. */
  lemma HandledIsSafe(dev: Device, pairs: seq<Pair>, read: Reader, tape: Tape)
    requires Truthful(read)
    ensures Handled(dev, pairs, read, tape).dev.replaced == dev.replaced
  {
    var (userRows, templateRows) := read(dev);
    assert UserRows(dev, userRows) && TemplateRows(dev, templateRows);
    OpenedFits(dev, userRows, templateRows);
    AllFits(dev, TablesOf(userRows, templateRows), pairs, tape, 0);
  }

  // ---- one id across a run ----

  /** Where an id sits during a run in which it is no new id: in slots other than its row's, which the run leaves
      alone, and perhaps in its row's slot, `home`, as long as the tables know it. */
  ghost predicate Tracked(dev: Device, t: Tables, id: string, home: Uid, others: set<Uid>) {
    && (forall u | u in others :: Occupies(dev, u, id))
    && (forall u | Occupies(dev, u, id) :: u in others || u == home)
    && (Occupies(dev, home, id) ==> id in t.byUserId)
    && (id in t.byUserId ==> t.byUserId[id].uid == home)
    && home !in others
  }

  lemma DeleteTracks(dev: Device, t: Tables, gone: string, o: Outcome, id: string, home: Uid, others: set<Uid>)
    requires Fits(dev, t) && gone in t.byUserId && Tracked(dev, t, id, home, others)
    ensures var dev' := DeleteUser(dev, t.byUserId[gone].uid, o);
            Tracked(dev', t, id, home, others) && (o.Done? ==> Tracked(dev', Forget(t, gone), id, home, others))
  {
    assert RowFits(dev, t, gone);
    var uid := t.byUserId[gone].uid;
    assert uid in dev.slots ==> Occupies(dev, uid, gone);
    var dev' := DeleteUser(dev, uid, o);
    assert forall u :: Occupies(dev', u, id) <==> Occupies(dev, u, id) && !(o.Applied() && u == uid);
  }

  lemma SaveAndDeleteTracks(dev: Device, t: Tables, p: Pair, pulled: Prints, tape: Tape, clock: nat, id: string, home: Uid,
                            others: set<Uid>)
    requires Fits(dev, t) && p.oldId in t.byUserId && p.newId in t.byUserId && Tracked(dev, t, id, home, others)
    ensures var r := SaveAndDelete(dev, t, p, pulled, tape, clock); Tracked(r.dev, r.tables, id, home, others)
  {
    var uid := t.byUserId[p.newId].uid;
    var c := SavePrints(dev, uid, pulled, tape, clock);
    SaveKeeps(dev, uid, pulled, tape, clock);
    SaveFits(dev, t, uid, pulled, tape, clock);
    assert forall u :: Occupies(c.dev, u, id) <==> Occupies(dev, u, id);
    DeleteTracks(c.dev, t, p.oldId, tape(c.clock), id, home, others);
  }

  lemma CreateTracks(dev: Device, t: Tables, user: User, o: Outcome, id: string, home: Uid, others: set<Uid>)
    requires Fits(dev, t) && user.userId != id && Tracked(dev, t, id, home, others)
    ensures var dev' := SetUser(dev, FreeFrom(t.used, 1), user, o);
            Tracked(dev', Allocated(t), id, home, others) && Tracked(dev', Created(t, user), id, home, others)
  {
    var dev' := SetUser(dev, FreeFrom(t.used, 1), user, o);
    assert forall u :: Occupies(dev', u, id) <==> Occupies(dev, u, id);
  }

  /** A pair keeps track of every id but its new one, and after a success its old id is in no row. */
  lemma PairTracks(dev: Device, t: Tables, p: Pair, tape: Tape, clock: nat, id: string, home: Uid, others: set<Uid>)
    requires Fits(dev, t) && Tracked(dev, t, id, home, others) && id != p.newId
    ensures var r := SlotPair(dev, t, p, tape, clock); Tracked(r.dev, r.tables, id, home, others)
  {
    if p.oldId in t.byUserId {
      var row := t.byUserId[p.oldId];
      var pulled, user := PulledAt(t.templates, row.uid), NewUser(row.user, p.newId);
      DeleteTracks(dev, t, p.oldId, tape(clock), id, home, others);
      if p.newId in t.byUserId {
        SaveAndDeleteTracks(dev, t, p, pulled, tape, clock, id, home, others);
      } else {
        CreateTracks(dev, t, user, tape(clock), id, home, others);
        CreateFits(dev, t, user, tape(clock));
        if tape(clock).Done? {
          SaveAndDeleteTracks(SetUser(dev, FreeFrom(t.used, 1), user, Done), Created(t, user), p, pulled, tape, clock + 1, id,
                              home, others);
        }
      }
    }
  }

  /** What becomes of the rows: no id but the new one gets a row, and after a success the old id has none. */
  lemma PairRows(dev: Device, t: Tables, p: Pair, tape: Tape, clock: nat)
    ensures var r := SlotPair(dev, t, p, tape, clock);
            && r.tables.byUserId.Keys <= t.byUserId.Keys + {p.newId}
            && (r.end.Reported? && r.end.status.Success() && p.oldId != p.newId ==> p.oldId !in r.tables.byUserId)
  {
  }

  /** Some pair that renames id is a success, or id had no row to begin with. */
  ghost predicate Cleared(results: seq<Result>, t: Tables, id: string) {
    id !in t.byUserId || exists k :: 0 <= k < |results| && results[k].oldId == id && results[k].status.Success()
  }

  lemma {:induction false} AllTracks(dev: Device, t: Tables, pairs: seq<Pair>, tape: Tape, clock: nat, id: string, home: Uid,
                                     others: set<Uid>)
    requires Fits(dev, t) && Tracked(dev, t, id, home, others) && id !in NewIds(pairs)
    ensures var end := SlotAll(dev, t, pairs, tape, clock);
            && (forall u | u in others :: Occupies(end.dev, u, id))
            && (forall u | Occupies(end.dev, u, id) :: u in others || u == home)
            && (Cleared(end.results, t, id) ==> !Occupies(end.dev, home, id))
    decreases |pairs|
  {
    if pairs != [] {
      var p, rest := pairs[0], pairs[1..];
      assert pairs == [p] + rest && NewIds([p]) == {p.newId} by { assert [p][0] == p; }
      NewIdsJoin([p], rest);
      PairFits(dev, t, p, tape, clock);
      PairTracks(dev, t, p, tape, clock, id, home, others);
      PairRows(dev, t, p, tape, clock);
      var one := SlotPair(dev, t, p, tape, clock);
      if one.end.Reported? {
        AllTracks(one.dev, one.tables, rest, tape, one.clock, id, home, others);
        var tail, whole := SlotAll(one.dev, one.tables, rest, tape, one.clock).results, SlotAll(dev, t, pairs, tape, clock).results;
        if Cleared(whole, t, id) && id in t.byUserId {
          var k :| 0 <= k < |whole| && whole[k].oldId == id && whole[k].status.Success();
          assert k > 0 ==> tail[k - 1] == whole[k];
        }
      }
    }
  }

  lemma SaveAndDeleteSpares(dev: Device, t: Tables, p: Pair, pulled: Prints, tape: Tape, clock: nat, id: string)
    requires Fits(dev, t) && p.oldId in t.byUserId && p.newId in t.byUserId && id != p.oldId
    ensures forall u :: Occupies(SaveAndDelete(dev, t, p, pulled, tape, clock).dev, u, id) <==> Occupies(dev, u, id)
  {
    assert RowFits(dev, t, p.oldId);
    SaveKeeps(dev, t.byUserId[p.newId].uid, pulled, tape, clock);
  }

  lemma PairSpares(dev: Device, t: Tables, p: Pair, tape: Tape, clock: nat, id: string)
    requires Fits(dev, t) && id != p.oldId && id != p.newId
    ensures forall u :: Occupies(SlotPair(dev, t, p, tape, clock).dev, u, id) <==> Occupies(dev, u, id)
  {
    if p.oldId in t.byUserId {
      var row := t.byUserId[p.oldId];
      var pulled, user := PulledAt(t.templates, row.uid), NewUser(row.user, p.newId);
      assert RowFits(dev, t, p.oldId);
      if p.newId in t.byUserId {
        SaveAndDeleteSpares(dev, t, p, pulled, tape, clock, id);
      } else {
        CreateFits(dev, t, user, tape(clock));
        if tape(clock).Done? {
          SaveAndDeleteSpares(SetUser(dev, FreeFrom(t.used, 1), user, Done), Created(t, user), p, pulled, tape, clock + 1, id);
        }
      }
    }
  }

  /** An id that no pair names stays in exactly its slots. */
  lemma {:induction false} AllSpare(dev: Device, t: Tables, pairs: seq<Pair>, tape: Tape, clock: nat, id: string)
    requires Fits(dev, t) && forall p | p in pairs :: p.oldId != id && p.newId != id
    ensures forall u :: Occupies(SlotAll(dev, t, pairs, tape, clock).dev, u, id) <==> Occupies(dev, u, id)
    decreases |pairs|
  {
    if pairs != [] {
      assert pairs[0] in pairs;
      PairFits(dev, t, pairs[0], tape, clock);
      PairSpares(dev, t, pairs[0], tape, clock, id);
      var one := SlotPair(dev, t, pairs[0], tape, clock);
      if one.end.Reported? {
        AllSpare(one.dev, one.tables, pairs[1..], tape, one.clock, id);
      }
    }
  }

  lemma RequestSpares(dev: Device, pairs: seq<Pair>, read: Reader, tape: Tape, id: string)
    requires Truthful(read) && forall p | p in pairs :: p.oldId != id && p.newId != id
    ensures forall u :: Occupies(Handled(dev, pairs, read, tape).dev, u, id) <==> Occupies(dev, u, id)
  {
    var (userRows, templateRows) := read(dev);
    assert UserRows(dev, userRows) && TemplateRows(dev, templateRows);
    OpenedFits(dev, userRows, templateRows);
    AllSpare(dev, TablesOf(userRows, templateRows), pairs, tape, 0, id);
  }

  // ---- the records ----

  /** Each slot holds the record it held, or one made for the pair from the old user's. */
  ghost predicate RecordsOf(dev: Device, t: Tables, p: Pair, dev': Device) {
    forall u | u in dev'.slots ::
      (u in dev.slots && dev'.slots[u].user == dev.slots[u].user) ||
      (p.oldId in t.byUserId && Renames(dev'.slots[u].user, t.byUserId[p.oldId].user, p.newId))
  }

  lemma SaveAndDeleteRecords(dev: Device, t: Tables, p: Pair, pulled: Prints, tape: Tape, clock: nat)
    requires p.oldId in t.byUserId && p.newId in t.byUserId
    ensures var dev' := SaveAndDelete(dev, t, p, pulled, tape, clock).dev;
            forall u | u in dev'.slots :: u in dev.slots && dev'.slots[u].user == dev.slots[u].user
  {
    SaveKeeps(dev, t.byUserId[p.newId].uid, pulled, tape, clock);
  }

  lemma PairRecords(dev: Device, t: Tables, p: Pair, tape: Tape, clock: nat)
    ensures RecordsOf(dev, t, p, SlotPair(dev, t, p, tape, clock).dev)
  {
    if p.oldId in t.byUserId {
      var row := t.byUserId[p.oldId];
      var pulled, user := PulledAt(t.templates, row.uid), NewUser(row.user, p.newId);
      NewUserRenames(row.user, p.newId);
      if p.newId in t.byUserId {
        SaveAndDeleteRecords(dev, t, p, pulled, tape, clock);
      } else if tape(clock).Done? {
        SaveAndDeleteRecords(SetUser(dev, FreeFrom(t.used, 1), user, Done), Created(t, user), p, pulled, tape, clock + 1);
      }
    }
  }

  /** The rows of old ids that are no new ids do not change, though they may go. */
  ghost predicate RowsFrom(t: Tables, t0: Tables, pairs: seq<Pair>) {
    forall p | p in pairs && p.oldId in t.byUserId :: p.oldId in t0.byUserId && t.byUserId[p.oldId] == t0.byUserId[p.oldId]
  }

  ghost predicate RecordFrom(user: User, t0: Tables, pairs: seq<Pair>) {
    exists p :: p in pairs && p.oldId in t0.byUserId && Renames(user, t0.byUserId[p.oldId].user, p.newId)
  }

  lemma PairKeepsRows(dev: Device, t: Tables, p: Pair, tape: Tape, clock: nat, id: string)
    requires id != p.newId
    ensures var t' := SlotPair(dev, t, p, tape, clock).tables;
            id in t'.byUserId ==> id in t.byUserId && t'.byUserId[id] == t.byUserId[id]
  {
  }

  lemma {:induction false} AllRecords(dev: Device, t: Tables, t0: Tables, pairs: seq<Pair>, tape: Tape, clock: nat, all: seq<Pair>, u: Uid)
    requires RowsFrom(t, t0, pairs) && (forall p, q | p in all && q in all :: p.oldId != q.newId) && (forall p | p in pairs :: p in all)
    requires u in SlotAll(dev, t, pairs, tape, clock).dev.slots
    ensures var user := SlotAll(dev, t, pairs, tape, clock).dev.slots[u].user;
            (u in dev.slots && user == dev.slots[u].user) || RecordFrom(user, t0, all)
    decreases |pairs|
  {
    if pairs != [] {
      var one := SlotPair(dev, t, pairs[0], tape, clock);
      assert pairs[0] in pairs;
      PairRecords(dev, t, pairs[0], tape, clock);
      if one.end.Reported? {
        forall p | p in pairs[1..] && p.oldId in one.tables.byUserId
          ensures p.oldId in t0.byUserId && one.tables.byUserId[p.oldId] == t0.byUserId[p.oldId]
        {
          assert p in pairs;
          PairKeepsRows(dev, t, pairs[0], tape, clock, p.oldId);
        }
        AllRecords(one.dev, one.tables, t0, pairs[1..], tape, one.clock, all, u);
      }
    }
  }

  /** One request on any device, for pairs whose old ids are no new ids, cut or failing anywhere: each slot holds the
      record it held when the connection opened, or the record some slot then held for a pair's old id, under the new id. */
  lemma RequestKeepsRecords(dev: Device, pairs: seq<Pair>, read: Reader, tape: Tape, u: Uid)
    requires Truthful(read) && (forall p, q | p in pairs && q in pairs :: p.oldId != q.newId)
    requires u in Handled(dev, pairs, read, tape).dev.slots
    ensures var user := Handled(dev, pairs, read, tape).dev.slots[u].user;
            || (u in dev.slots && user == dev.slots[u].user)
            || exists p, w :: p in pairs && Occupies(dev, w, p.oldId) && Renames(user, dev.slots[w].user, p.newId)
  {
    var (userRows, templateRows) := read(dev);
    assert UserRows(dev, userRows) && TemplateRows(dev, templateRows);
    var t, user := TablesOf(userRows, templateRows), Handled(dev, pairs, read, tape).dev.slots[u].user;
    AllRecords(dev, t, t, pairs, tape, 0, pairs, u);
    if RecordFrom(user, t, pairs) {
      var p :| p in pairs && p.oldId in t.byUserId && Renames(user, t.byUserId[p.oldId].user, p.newId);
      OpenedRow(dev, userRows, p.oldId);
      assert Occupies(dev, t.byUserId[p.oldId].uid, p.oldId);
    }
  }

  /** One request: after a success for an old id that is no pair's new id, no slot of the device holds it any more
      if and only if at most one slot held it when the connection opened. The rows name one slot per id. */
  lemma SlotGoneIff(dev: Device, pairs: seq<Pair>, read: Reader, tape: Tape, k: nat)
    requires Truthful(read) && k < |pairs| && pairs[k].oldId !in NewIds(pairs)
    requires var results := Handled(dev, pairs, read, tape).results; k < |results| && results[k].status.Success()
    ensures InNoSlot(Handled(dev, pairs, read, tape).dev, pairs[k].oldId) <==> InOneSlot(dev, pairs[k].oldId)
  {
    var id, end := pairs[k].oldId, Handled(dev, pairs, read, tape);
    var others := SlotsSpared(dev, id, read);
    RequestTracks(dev, pairs, read, tape, id);
    ResultsInOrder(dev, TablesOf(read(dev).0, read(dev).1), pairs, tape, 0);
    assert end.results[k].oldId == id;
    assert InNoSlot(end.dev, id) <==> others == {};
    if u, w :| Occupies(dev, u, id) && Occupies(dev, w, id) && u != w {
      assert u in others || w in others;
    }
    if u :| u in others {
      assert Occupies(dev, u, id) && Occupies(dev, UsersById(read(dev).0)[id].uid, id);
    }
  }

  /** The slots of id that its row does not name. */
  function SlotsSpared(dev: Device, id: string, read: Reader): set<Uid> {
    var users := UsersById(read(dev).0);
    set u | u in dev.slots && dev.slots[u].user.userId == id && !(id in users && users[id].uid == u)
  }

  lemma RequestTracks(dev: Device, pairs: seq<Pair>, read: Reader, tape: Tape, id: string)
    requires Truthful(read) && id !in NewIds(pairs)
    ensures var end := Handled(dev, pairs, read, tape);
            var users, others := UsersById(read(dev).0), SlotsSpared(dev, id, read);
            && (forall u, i | Occupies(dev, u, i) :: i in users)
            && (forall i | i in users :: Occupies(dev, users[i].uid, i))
            && (forall u | u in others :: Occupies(end.dev, u, id))
            && (forall u | Occupies(end.dev, u, id) :: Occupies(dev, u, id))
            && ((exists k :: 0 <= k < |end.results| && end.results[k].oldId == id && end.results[k].status.Success()) ==>
                  forall u | Occupies(end.dev, u, id) :: u in others)
  {
    var (userRows, templateRows) := read(dev);
    assert UserRows(dev, userRows) && TemplateRows(dev, templateRows);
    var t := TablesOf(userRows, templateRows);
    OpenedFits(dev, userRows, templateRows);
    forall u, i | Occupies(dev, u, i) ensures i in t.byUserId { OpenedSlot(dev, userRows, u, i); }
    forall i | i in t.byUserId ensures Occupies(dev, t.byUserId[i].uid, i) { OpenedRow(dev, userRows, i); }
    var others := SlotsSpared(dev, id, read);
    var home := if id in t.byUserId then t.byUserId[id].uid else 0;
    forall u | Occupies(dev, u, id) ensures u in others || u == home { }
    AllTracks(dev, t, pairs, tape, 0, id, home, others);
    var end := Handled(dev, pairs, read, tape);
  }

  /** The results so far are those of the first pairs, in order; all of them if the process did not die. */
  lemma {:induction false} ResultsInOrder(dev: Device, t: Tables, pairs: seq<Pair>, tape: Tape, clock: nat)
    ensures var end := SlotAll(dev, t, pairs, tape, clock);
            && |end.results| <= |pairs| && (!end.died ==> |end.results| == |pairs|)
            && forall k | 0 <= k < |end.results| ::
                 end.results[k].oldId == pairs[k].oldId && end.results[k].newId == pairs[k].newId
    decreases |pairs|
  {
    if pairs != [] {
      var one := SlotPair(dev, t, pairs[0], tape, clock);
      ResultsInOrder(one.dev, one.tables, pairs[1..], tape, one.clock);
    }
  }
}
