/** The bridge's rename endpoint: three tables over one device connection, kept up to date by the code itself while
    slots are freed and reused. It is proved to be the run of RenameSlots, on any device. */
module RenameBridge {
  import opened BiometricDevice
  import opened RenameReference
  import opened RenameSlots

  /** Least slot number from 1 that is not taken. */
  method NextFreeUid(used: set<Uid>) returns (uid: Uid)
    ensures uid == FreeFrom(used, 1)
  {
    uid := 1;
    ghost var ahead := used;
    while uid in used
      invariant 1 <= uid && forall k: Uid | 1 <= k < uid :: k in used
      invariant forall k | k in used && uid <= k :: k in ahead
      decreases ahead
    {
      ahead := ahead - {uid};
      uid := uid + 1;
    }
    LeastIsUnique(used, uid, FreeFrom(used, 1));
  }

  lemma LeastIsUnique(used: set<Uid>, a: Uid, b: Uid)
    requires 1 <= a && a !in used && forall k: Uid | 1 <= k < a :: k in used
    requires 1 <= b && b !in used && forall k: Uid | 1 <= k < b :: k in used
    ensures a == b
  {
  }

  /** by_user_id and used_uids from the user rows. */
  method IndexUsers(rows: seq<UserRow>) returns (byUserId: map<string, UserRow>, usedUids: set<Uid>)
    ensures byUserId == UsersById(rows) && usedUids == UidsOf(rows)
  {
    byUserId, usedUids := map[], {};
    for i := 0 to |rows|
      invariant byUserId == UsersById(rows[..i]) && usedUids == UidsOf(rows[..i])
    {
      assert rows[..i + 1] == rows[..i] + [rows[i]] && rows[..i + 1][..i] == rows[..i];
      byUserId := byUserId[rows[i].user.userId := rows[i]];
      usedUids := usedUids + {rows[i].uid};
    }
    assert rows[..|rows|] == rows;
  }

  /** templates_by_uid from the template rows. */
  method IndexTemplates(rows: seq<TemplateRow>) returns (templatesByUid: map<Uid, Prints>)
    ensures templatesByUid == TemplatesByUid(rows)
  {
    templatesByUid := map[];
    for i := 0 to |rows|
      invariant templatesByUid == TemplatesByUid(rows[..i])
    {
      var row := rows[i];
      assert rows[..i + 1][..i] == rows[..i];
      if row.template.valid {
        templatesByUid := templatesByUid[row.uid := PulledAt(templatesByUid, row.uid) + [(row.finger, row.template)]];
      }
    }
    assert rows[..|rows|] == rows;
  }

  class RenameSession {
    var dev: Device
    const tape: Tape
    var clock: nat
    var byUserId: map<string, UserRow>
    var usedUids: set<Uid>
    var templatesByUid: map<Uid, Prints>

    function Tables(): Tables
      reads this
    {
      RenameSlots.Tables(byUserId, usedUids, templatesByUid)
    }

    /** Opening reads all users and all templates once and builds the tables. */
    constructor (dev: Device, userRows: seq<UserRow>, templateRows: seq<TemplateRow>, tape: Tape)
      ensures this.dev == dev && this.tape == tape && clock == 0
      ensures Tables() == TablesOf(userRows, templateRows)
    {
      var users, uids := IndexUsers(userRows);
      var templates := IndexTemplates(templateRows);
      this.dev, this.tape, clock := dev, tape, 0;
      byUserId, usedUids, templatesByUid := users, uids, templates;
    }

    method AllocUid() returns (uid: Uid)
      modifies this`usedUids
      ensures uid == FreeFrom(old(usedUids), 1) && Tables() == Allocated(old(Tables()))
    {
      uid := NextFreeUid(usedUids);
      usedUids := usedUids + {uid};
    }

    /** Saves the pulled templates into a slot, stopping at the first request that fails. */
    method SaveTemplates(uid: Uid, pulled: Prints) returns (copied: seq<Finger>, end: CopyEnd)
      modifies this`dev, this`clock
      ensures SavePrints(old(dev), uid, pulled, tape, old(clock)) == SavedRun(dev, copied, end, clock)
    {
      copied, end := [], AllSaved;
      ghost var whole := SavePrints(dev, uid, pulled, tape, clock);
      assert pulled[0..] == pulled;
      for i := 0 to |pulled|
        invariant SavingGoesOn(whole, copied, dev, uid, pulled, i, tape, clock)
      {
        var (finger, template) := pulled[i];
        var outcome := tape(clock);
        SavingStep(whole, copied, dev, uid, pulled, i, tape, clock);
        dev := SaveTemplate(dev, uid, finger, template, outcome);
        clock := clock + 1;
        if outcome.Killed? { return copied, SaveKilled; }
        if outcome.Raised? { return copied, SaveRaised; }
        copied := copied + [finger];
      }
    }

    /** Deletes a user in the tables and, if the device confirms, forgets it in every table. */
    method ReportDelete(id: string, ok: Status, failed: Status) returns (end: End)
      requires id in byUserId
      modifies this`dev, this`clock, this`byUserId, this`usedUids, this`templatesByUid
      ensures DeleteRow(old(dev), old(Tables()), id, tape, old(clock), ok, failed) == SlotRun(dev, Tables(), end, clock)
    {
      var outcome, uid := tape(clock), byUserId[id].uid;
      dev := DeleteUser(dev, uid, outcome);
      clock := clock + 1;
      match outcome {
        case Killed(_) => return Died;
        case Raised(_) => return Reported(failed);
        case Done =>
          usedUids := usedUids - {uid};
          byUserId := byUserId - {id};
          templatesByUid := templatesByUid - {uid};
          assert Tables() == Forget(old(Tables()), id);
          return Reported(ok);
      }
    }

    method CopyThenDelete(p: Pair, pulled: Prints) returns (end: End)
      requires p.oldId in byUserId && p.newId in byUserId
      modifies this`dev, this`clock, this`byUserId, this`usedUids, this`templatesByUid
      ensures SaveAndDelete(old(dev), old(Tables()), p, pulled, tape, old(clock)) == SlotRun(dev, Tables(), end, clock)
    {
      var copied, copyEnd := SaveTemplates(byUserId[p.newId].uid, pulled);
      match copyEnd
      case SaveKilled => return Died;
      case SaveRaised => return Reported(TemplateSaveFailed(copied));
      case AllSaved =>
        end := ReportDelete(p.oldId, Ok(copied), DeleteOldFailed(copied));
    }

    /** One pair of the run. */
    method RenameOne(p: Pair) returns (end: End)
      modifies this`dev, this`clock, this`byUserId, this`usedUids, this`templatesByUid
      ensures SlotPair(old(dev), old(Tables()), p, tape, old(clock)) == SlotRun(dev, Tables(), end, clock)
    {
      if p.oldId !in byUserId {
        return Reported(if p.newId in byUserId then AlreadyRenamed else OldNotFound);
      }
      var oldUser := byUserId[p.oldId].user;
      var pulled := PulledAt(templatesByUid, byUserId[p.oldId].uid);
      if p.newId in byUserId {
        var newHas := PulledAt(templatesByUid, byUserId[p.newId].uid) != [];
        var oldHas := pulled != [];
        if newHas && !oldHas {
          end := ReportDelete(p.oldId, OkRecovered, DeleteOldFailedInRecovery);
          return;
        }
        if newHas && oldHas {
          end := ReportDelete(p.oldId, OkResolvedConflict, DeleteOldFailedInConflict);
          return;
        }
      } else {
        var uid := AllocUid();
        var safeName := SafeName(oldUser.name);
        if safeName == "" {
          return Reported(NameEmpty);
        }
        var newUser := User(p.newId, safeName, oldUser.privilege, oldUser.password, oldUser.groupId, oldUser.card);
        var outcome := tape(clock);
        dev := SetUser(dev, uid, newUser, outcome);
        clock := clock + 1;
        if outcome.Killed? { return Died; }
        if outcome.Raised? { return Reported(CreateNewFailed); }
        byUserId := byUserId[p.newId := UserRow(uid, newUser)];
      }
      end := CopyThenDelete(p, pulled);
    }

    /** The whole run. */
    method UsersRename(pairs: seq<Pair>) returns (results: seq<Result>, died: bool)
      modifies this`dev, this`clock, this`byUserId, this`usedUids, this`templatesByUid
      ensures SlotAll(old(dev), old(Tables()), pairs, tape, old(clock)) == SlotsEnd(dev, results, died)
    {
      results := [];
      ghost var whole := SlotAll(dev, Tables(), pairs, tape, clock);
      assert pairs[0..] == pairs;
      for i := 0 to |pairs|
        invariant RunGoesOn(whole, results, dev, Tables(), pairs, i, tape, clock)
      {
        RunStep(whole, results, dev, Tables(), pairs, i, tape, clock);
        var end := RenameOne(pairs[i]);
        if end.Died? { return results, true; }
        results := results + [Result(pairs[i].oldId, pairs[i].newId, end.status)];
      }
      return results, false;
    }
  }

  /** One rename request, from opening the connection to the response, on any device and for any pairs. */
  method HandleRename(dev: Device, pairs: seq<Pair>, read: Reader, tape: Tape) returns (dev': Device, results: seq<Result>, died: bool)
    ensures SlotsEnd(dev', results, died) == Handled(dev, pairs, read, tape)
    ensures Truthful(read) ==> dev'.replaced == dev.replaced
  {
    var (userRows, templateRows) := read(dev);
    var session := new RenameSession(dev, userRows, templateRows, tape);
    results, died := session.UsersRename(pairs);
    dev' := session.dev;
    if Truthful(read) {
      HandledIsSafe(dev, pairs, read, tape);
    }
  }
}
