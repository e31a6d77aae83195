/** What a rename run means, said over user ids alone: no slots, no caches. RenameCaches says when the bridge's
    run, which decides by its caches, does exactly this. */
module RenameReference {
  import opened Common
  import opened BiometricDevice

  datatype Pair = Pair(oldId: string, newId: string)

  datatype Status =
    | AlreadyRenamed | OldNotFound | OkRecovered | DeleteOldFailedInRecovery | OkResolvedConflict
    | DeleteOldFailedInConflict | NameEmpty | CreateNewFailed | TemplateSaveFailed(copied: seq<Finger>)
    | Ok(fingers: seq<Finger>) | DeleteOldFailed(copied: seq<Finger>)
  {
    /** The statuses the script counts as success. */
    predicate Success() {
      Ok? || OkRecovered? || OkResolvedConflict? || AlreadyRenamed? || OldNotFound?
    }
  }

  datatype Result = Result(oldId: string, newId: string, status: Status)

  /** A pair either is reported or the process died while handling it. */
  datatype End = Reported(status: Status) | Died

  type Prints = seq<(Finger, Template)>

  function Latin1(name: string): string {
    if name == "" then "" else (if name[0] as int < 256 then [name[0]] else []) + Latin1(name[1..])
  }

  /** The device's name field: Latin-1 only, at most 24 characters. */
  function SafeName(name: string): string {
    var cleaned := Latin1(name);
    if |cleaned| > 24 then cleaned[..24] else cleaned
  }

  predicate IsLatin1(c: char) {
    c as int < 256
  }

  /** What the device can store of a name: its characters below 256 in order, at most the first 24 of them. */
  ghost predicate DeviceName(short: string, name: string) {
    exists at :: AllWhere(name, 0, at, IsLatin1) && FirstOf(short, name, at)
  }

  ghost predicate FirstOf(short: string, name: string, at: seq<nat>) {
    && |short| == (if |at| < 24 then |at| else 24)
    && forall i | 0 <= i < |short| :: at[i] < |name| && short[i] == name[at[i]]
  }

  lemma {:induction false} Latin1Keeps(name: string, k: nat) returns (at: seq<nat>)
    requires k <= |name|
    ensures AllWhere(name, k, at, IsLatin1) && PickedAt(Latin1(name[k..]), name, at)
    decreases |name| - k
  {
    at := [];
    if k < |name| {
      var rest := Latin1Keeps(name, k + 1);
      assert name[k..][1..] == name[k + 1..];
      OneInFront(Latin1(name[k + 1..]), name, k, rest, IsLatin1);
      at := if IsLatin1(name[k]) then [k] + rest else rest;
    }
  }

  lemma SafeNameIsDeviceName(name: string)
    ensures DeviceName(SafeName(name), name)
  {
    var at := Latin1Keeps(name, 0);
    assert name[0..] == name;
    assert FirstOf(SafeName(name), name, at);
  }

  /** And no other name is. */
  lemma DeviceNameIsUnique(a: string, b: string, name: string)
    requires DeviceName(a, name) && DeviceName(b, name)
    ensures a == b
  {
    var at :| AllWhere(name, 0, at, IsLatin1) && FirstOf(a, name, at);
    var bt :| AllWhere(name, 0, bt, IsLatin1) && FirstOf(b, name, bt);
    RisingIsUnique(at, bt);
  }

  /** The name has no character the device can store. */
  predicate Nameless(name: string) {
    forall i | 0 <= i < |name| :: name[i] as int >= 256
  }

  lemma NamelessIff(name: string)
    ensures SafeName(name) == "" <==> Nameless(name)
  {
    var at := Latin1Keeps(name, 0);
    assert name[0..] == name;
    FirstIsIn(at);
    if SafeName(name) == "" {
      forall i | 0 <= i < |name| ensures name[i] as int >= 256 {
        assert i in at <==> IsLatin1(name[i]);
      }
    }
  }

  datatype CopyEnd = AllSaved | SaveRaised | SaveKilled
  datatype CopyRun = CopyRun(view: View, copied: seq<Finger>, end: CopyEnd, clock: nat)

  function WithPrint(v: View, id: string, f: Finger, t: Template): View {
    if id in v then v[id := v[id].(prints := v[id].prints[f := t])] else v
  }

  function CopyPrints(v: View, id: string, pulled: Prints, tape: Tape, clock: nat): CopyRun {
    if pulled == [] then CopyRun(v, [], AllSaved, clock) else
    var (f, t) := pulled[0];
    var v1 := if tape(clock).Applied() then WithPrint(v, id, f, t) else v;
    match tape(clock)
    case Raised(_) => CopyRun(v1, [], SaveRaised, clock + 1)
    case Killed(_) => CopyRun(v1, [], SaveKilled, clock + 1)
    case Done =>
      var rest := CopyPrints(v1, id, pulled[1..], tape, clock + 1);
      rest.(copied := [f] + rest.copied)
  }

  datatype PairRun = PairRun(view: View, end: End, clock: nat)

  function DeleteOld(v: View, id: string, tape: Tape, clock: nat, ok: Status, failed: Status): PairRun {
    PairRun(if tape(clock).Applied() then v - {id} else v,
            match tape(clock) { case Done => Reported(ok) case Raised(_) => Reported(failed) case Killed(_) => Died },
            clock + 1)
  }

  function CopyAndDelete(v: View, p: Pair, pulled: Prints, tape: Tape, clock: nat): PairRun {
    var c := CopyPrints(v, p.newId, pulled, tape, clock);
    match c.end
    case SaveKilled => PairRun(c.view, Died, c.clock)
    case SaveRaised => PairRun(c.view, Reported(TemplateSaveFailed(c.copied)), c.clock)
    case AllSaved => DeleteOld(c.view, p.oldId, tape, c.clock, Ok(c.copied), DeleteOldFailed(c.copied))
  }

  function NewUser(oldUser: User, newId: string): User {
    oldUser.(userId := newId, name := SafeName(oldUser.name))
  }

  /** The record of the old user under the new id: everything but the id is kept, the name as far as the device can. */
  ghost predicate Renames(user: User, from: User, newId: string) {
    && user.userId == newId && DeviceName(user.name, from.name)
    && user.privilege == from.privilege && user.password == from.password && user.groupId == from.groupId && user.card == from.card
  }

  lemma NewUserRenames(from: User, newId: string)
    ensures Renames(NewUser(from, newId), from, newId)
  {
    SafeNameIsDeviceName(from.name);
  }

  /** One pair. `pulled` lists the old user's valid templates in the order the device listed them. */
  function RenamePair(v: View, p: Pair, pulled: Prints, tape: Tape, clock: nat): PairRun {
    if p.oldId !in v then
      PairRun(v, Reported(if p.newId in v then AlreadyRenamed else OldNotFound), clock)
    else if p.newId in v then
      if !HasValid(v[p.newId]) then CopyAndDelete(v, p, pulled, tape, clock)
      else if HasValid(v[p.oldId]) then DeleteOld(v, p.oldId, tape, clock, OkResolvedConflict, DeleteOldFailedInConflict)
      else DeleteOld(v, p.oldId, tape, clock, OkRecovered, DeleteOldFailedInRecovery)
    else if SafeName(v[p.oldId].user.name) == "" then
      PairRun(v, Reported(NameEmpty), clock)
    else
      var v1 := v[p.newId := Slot(NewUser(v[p.oldId].user, p.newId), map[])];
      var v' := if tape(clock).Applied() then v1 else v;
      match tape(clock)
      case Killed(_) => PairRun(v', Died, clock + 1)
      case Raised(_) => PairRun(v', Reported(CreateNewFailed), clock + 1)
      case Done => CopyAndDelete(v', p, pulled, tape, clock + 1)
  }

  type Listing = map<string, Prints>

  function PulledFor(listing: Listing, id: string): Prints {
    if id in listing then listing[id] else []
  }

  datatype RunEnd = RunEnd(view: View, results: seq<Result>, died: bool, clock: nat)

  function RenameAll(v: View, listing: Listing, pairs: seq<Pair>, tape: Tape, clock: nat): RunEnd
    decreases |pairs|
  {
    if pairs == [] then RunEnd(v, [], false, clock) else
    var one := RenamePair(v, pairs[0], PulledFor(listing, pairs[0].oldId), tape, clock);
    match one.end
    case Died => RunEnd(one.view, [], true, one.clock)
    case Reported(status) =>
      var rest := RenameAll(one.view, listing, pairs[1..], tape, one.clock);
      rest.(results := [Result(pairs[0].oldId, pairs[0].newId, status)] + rest.results)
  }

  predicate Separate(p: Pair, q: Pair) {
    p.oldId != q.oldId && p.newId != q.newId && p.oldId != q.newId && p.newId != q.oldId
  }

  predicate NewIdsDistinct(pairs: seq<Pair>) {
    forall i, j | 0 <= i < j < |pairs| :: pairs[i].newId != pairs[j].newId
  }

  function NewIds(pairs: seq<Pair>): set<string> {
    set j | 0 <= j < |pairs| :: pairs[j].newId
  }

  lemma NewIdsJoin(p: seq<Pair>, q: seq<Pair>)
    ensures NewIds(p + q) == NewIds(p) + NewIds(q)
  {
    assert forall j | 0 <= j < |p| :: (p + q)[j] == p[j];
    assert forall j | 0 <= j < |q| :: (p + q)[|p| + j] == q[j];
  }

  /** New ids distinct, and no id both old and new; old ids may repeat. */
  ghost predicate Targets(pairs: seq<Pair>) {
    && NewIdsDistinct(pairs)
    && (forall i, j | 0 <= i < |pairs| && 0 <= j < |pairs| :: pairs[i].oldId != pairs[j].newId)
  }

  /** Old ids distinct, new ids distinct, and no id both old and new. */
  ghost predicate Plan(pairs: seq<Pair>) {
    && (forall i | 0 <= i < |pairs| :: pairs[i].oldId != pairs[i].newId)
    && (forall i, j | 0 <= i < j < |pairs| :: Separate(pairs[i], pairs[j]))
  }

  /** The prints list exactly the valid templates of id. */
  ghost predicate Lists(pulled: Prints, v: View, id: string) {
    forall f, t :: (f, t) in pulled <==> Held(v, id, f) && v[id].prints[f] == t
  }

  ghost predicate ListsAll(listing: Listing, v: View, pairs: seq<Pair>) {
    forall p | p in pairs :: Lists(PulledFor(listing, p.oldId), v, p.oldId)
  }
}
