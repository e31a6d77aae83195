/** A fingerprint device as the bridge sees it: numbered slots, each holding one user record and that
    user's templates. Every request to the device takes its outcome from a tape, so that "any call
    may fail, and the process may die between any two calls" is a statement over all tapes. */
module BiometricDevice {
  type Uid = nat
  type Finger = int

  datatype User = User(userId: string, name: string, privilege: int, password: string, groupId: string, card: int)
  datatype Template = Template(data: string, valid: bool)
  datatype Slot = Slot(user: User, prints: map<Finger, Template>)

  /** `replaced` records, for every set_user request that named an occupied slot, the id of the occupant
      and the id being written. */
  datatype Device = Device(slots: map<Uid, Slot>, replaced: seq<(string, string)>)

  /** What became of one request: it returned, it raised, or the process died during it. A request that
      raised or died may or may not have taken effect on the device. */
  datatype Outcome = Done | Raised(effect: bool) | Killed(effect: bool) {
    predicate Applied() {
      Done? || effect
    }
  }

  type Tape = nat -> Outcome

  function SetUser(dev: Device, uid: Uid, user: User, o: Outcome): Device {
    var noted := if uid in dev.slots then dev.replaced + [(dev.slots[uid].user.userId, user.userId)] else dev.replaced;
    var prints := if uid in dev.slots then dev.slots[uid].prints else map[];
    Device(if o.Applied() then dev.slots[uid := Slot(user, prints)] else dev.slots, noted)
  }

  function SaveTemplate(dev: Device, uid: Uid, finger: Finger, t: Template, o: Outcome): Device {
    if o.Applied() && uid in dev.slots then
      dev.(slots := dev.slots[uid := dev.slots[uid].(prints := dev.slots[uid].prints[finger := t])])
    else
      dev
  }

  /** Deleting a user drops the slot's templates with it. */
  function DeleteUser(dev: Device, uid: Uid, o: Outcome): Device {
    if o.Applied() then dev.(slots := dev.slots - {uid}) else dev
  }

  type View = map<string, Slot>

  /** The least slot number from k on that is not taken. */
  function FreeFrom(used: set<Uid>, k: Uid): (uid: Uid)
    ensures k <= uid && uid !in used && forall j: Uid | k <= j < uid :: j in used
    decreases used
  {
    if k in used then FreeFrom(used - {k}, k + 1) else k
  }

  ghost predicate Occupies(dev: Device, uid: Uid, id: string) {
    uid in dev.slots && dev.slots[uid].user.userId == id
  }

  /** No two slots hold this id. */
  ghost predicate InOneSlot(dev: Device, id: string) {
    forall u, w | Occupies(dev, u, id) && Occupies(dev, w, id) :: u == w
  }

  ghost predicate InNoSlot(dev: Device, id: string) {
    forall u :: !Occupies(dev, u, id)
  }

  /** v is the device with its slot numbers forgotten: exactly its users by id, each with its record and
      templates, and no id in two slots. */
  ghost predicate Shows(dev: Device, v: View) {
    && (forall u, id :: Occupies(dev, u, id) ==> id in v && v[id] == dev.slots[u])
    && (forall id | id in v :: exists u :: Occupies(dev, u, id))
    && (forall u, w, id :: Occupies(dev, u, id) && Occupies(dev, w, id) ==> u == w)
  }

  predicate HasValid(slot: Slot) {
    exists f | f in slot.prints :: slot.prints[f].valid
  }

  ghost predicate Held(v: View, id: string, f: Finger) {
    id in v && f in v[id].prints && v[id].prints[f].valid
  }

  /** The slot that holds id, if there is just one. */
  ghost function HolderOf(dev: Device, id: string): Uid
    requires !InNoSlot(dev, id)
  {
    var u :| Occupies(dev, u, id); u
  }

  function IdsOn(dev: Device): set<string> {
    set u | u in dev.slots :: dev.slots[u].user.userId
  }

  lemma OnDevice(dev: Device, id: string)
    ensures id in IdsOn(dev) <==> !InNoSlot(dev, id)
  {
    if u :| Occupies(dev, u, id) {
      assert u in dev.slots;
    }
    if id in IdsOn(dev) {
      var u :| u in dev.slots && dev.slots[u].user.userId == id;
      assert Occupies(dev, u, id);
    }
  }

  lemma InOneSlotShows(dev: Device) returns (v: View)
    requires forall id :: InOneSlot(dev, id)
    ensures Shows(dev, v)
  {
    forall id ensures id in IdsOn(dev) <==> !InNoSlot(dev, id) { OnDevice(dev, id); }
    v := map id | id in IdsOn(dev) :: dev.slots[HolderOf(dev, id)];
    forall u, id | Occupies(dev, u, id) ensures id in v && v[id] == dev.slots[u] {
      assert !InNoSlot(dev, id) && InOneSlot(dev, id);
    }
    forall id | id in v ensures exists u :: Occupies(dev, u, id) {
      assert Occupies(dev, HolderOf(dev, id), id);
    }
    forall u, w, id | Occupies(dev, u, id) && Occupies(dev, w, id) ensures u == w {
      assert InOneSlot(dev, id);
    }
  }

  /** A device has a view by id exactly if no id sits in two slots, and then it has one view only. */
  lemma ViewIff(dev: Device)
    ensures (exists v :: Shows(dev, v)) <==> forall id :: InOneSlot(dev, id)
    ensures forall v, w | Shows(dev, v) && Shows(dev, w) :: v == w
  {
    if forall id :: InOneSlot(dev, id) {
      var v := InOneSlotShows(dev);
    }
  }

  lemma CreateShows(dev: Device, v: View, uid: Uid, user: User)
    requires Shows(dev, v) && uid !in dev.slots && user.userId !in v
    ensures Shows(SetUser(dev, uid, user, Done), v[user.userId := Slot(user, map[])])
  {
    var dev' := SetUser(dev, uid, user, Done);
    var v' := v[user.userId := Slot(user, map[])];
    forall u, id | Occupies(dev', u, id) ensures id in v' && v'[id] == dev'.slots[u] {
      if u != uid { assert Occupies(dev, u, id); }
    }
    forall id | id in v' ensures exists u :: Occupies(dev', u, id) {
      if id == user.userId {
        assert Occupies(dev', uid, id);
      } else {
        var u :| Occupies(dev, u, id);
        assert Occupies(dev', u, id);
      }
    }
    forall u, w, id | Occupies(dev', u, id) && Occupies(dev', w, id) ensures u == w {
      assert u != uid ==> Occupies(dev, u, id);
      assert w != uid ==> Occupies(dev, w, id);
    }
  }

  lemma UpdateShows(dev: Device, v: View, uid: Uid, user: User)
    requires Shows(dev, v) && Occupies(dev, uid, user.userId)
    ensures user.userId in v
    ensures Shows(SetUser(dev, uid, user, Done), v[user.userId := v[user.userId].(user := user)])
  {
    var dev' := SetUser(dev, uid, user, Done);
    assert forall u, id :: Occupies(dev', u, id) <==> Occupies(dev, u, id);
  }

  lemma SaveShows(dev: Device, v: View, uid: Uid, f: Finger, t: Template)
    requires Shows(dev, v) && uid in dev.slots
    ensures var id := dev.slots[uid].user.userId;
            id in v && Shows(SaveTemplate(dev, uid, f, t, Done), v[id := v[id].(prints := v[id].prints[f := t])])
  {
    var dev' := SaveTemplate(dev, uid, f, t, Done);
    assert Occupies(dev, uid, dev.slots[uid].user.userId);
    assert forall u, id :: Occupies(dev', u, id) <==> Occupies(dev, u, id);
  }

  lemma DeleteShows(dev: Device, v: View, uid: Uid)
    requires Shows(dev, v) && uid in dev.slots
    ensures Shows(DeleteUser(dev, uid, Done), v - {dev.slots[uid].user.userId})
  {
    var dev' := DeleteUser(dev, uid, Done);
    assert Occupies(dev, uid, dev.slots[uid].user.userId);
    assert forall u, id :: Occupies(dev', u, id) <==> Occupies(dev, u, id) && u != uid;
  }
}
