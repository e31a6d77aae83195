/** bulk_upsert: many users over one connection, slots chosen from a cache of the user list. */
module BulkUpsert {
  import opened Common
  import opened BiometricDevice
  import opened RenameReference
  import opened RenameSlots
  import opened RenameBridge

  /** A user to write, and the slot if the request names one. */
  datatype Request = Request(user: User, uid: Option<Uid>)

  /** ok with the slot used, or why not. */
  datatype Upserted = Upserted(uid: Uid) | NameEmptyAfterSanitize | SetUserFailed

  /** The user list as read, with a stub for each user added since: slot and id. */
  type Cache = seq<(Uid, string)>

  function Sanitized(user: User): User {
    user.(name := SafeName(user.name))
  }

  // ---- what the batch does, slot by slot ----

  /** The slot of the first row with this id. */
  function FirstFor(cache: Cache, id: string): (slot: Option<Uid>)
    ensures slot.Some? ==> (slot.value, id) in cache
    ensures slot.None? ==> forall row | row in cache :: row.1 != id
  {
    if cache == [] then None
    else if cache[0].1 == id then Some(cache[0].0)
    else
      assert cache == [cache[0]] + cache[1..];
      FirstFor(cache[1..], id)
  }

  function TakenIn(cache: Cache): set<Uid> {
    set row | row in cache :: row.0
  }

  function SlotFor(cache: Cache, req: Request): Uid {
    if req.uid.Some? then req.uid.value
    else if FirstFor(cache, req.user.userId).Some? then FirstFor(cache, req.user.userId).value
    else FreeFrom(TakenIn(cache), 1)
  }

  function UpsertOne(dev: Device, cache: Cache, req: Request, o: Outcome): (Device, Upserted) {
    if SafeName(req.user.name) == "" then (dev, NameEmptyAfterSanitize)
    else
      (SetUser(dev, SlotFor(cache, req), Sanitized(req.user), o), if o.Done? then Upserted(SlotFor(cache, req)) else SetUserFailed)
  }

  function Remembered(cache: Cache, uid: Uid, id: string): Cache {
    if FirstFor(cache, id).Some? then cache else cache + [(uid, id)]
  }

  datatype BatchEnd = BatchEnd(dev: Device, results: seq<Upserted>, died: bool)

  function Batch(dev: Device, cache: Cache, reqs: seq<Request>, tape: Tape, clock: nat): BatchEnd
    decreases |reqs|
  {
    if reqs == [] then BatchEnd(dev, [], false) else
    var (dev', result) := UpsertOne(dev, cache, reqs[0], tape(clock));
    if !result.NameEmptyAfterSanitize? && tape(clock).Killed? then BatchEnd(dev', [], true)
    else
      var cache' := if result.Upserted? then Remembered(cache, result.uid, reqs[0].user.userId) else cache;
      var rest := Batch(dev', cache', reqs[1..], tape, if result.NameEmptyAfterSanitize? then clock else clock + 1);
      rest.(results := [result] + rest.results)
  }

  ghost predicate BatchGoesOn(whole: BatchEnd, results: seq<Upserted>, dev: Device, cache: Cache, reqs: seq<Request>, i: nat,
                              tape: Tape, clock: nat) {
    i <= |reqs| &&
    var rest := Batch(dev, cache, reqs[i..], tape, clock);
    whole == BatchEnd(rest.dev, results + rest.results, rest.died)
  }

  lemma BatchStep(whole: BatchEnd, results: seq<Upserted>, dev: Device, cache: Cache, reqs: seq<Request>, i: nat,
                  tape: Tape, clock: nat)
    requires i < |reqs| && BatchGoesOn(whole, results, dev, cache, reqs, i, tape, clock)
    ensures var (dev', result) := UpsertOne(dev, cache, reqs[i], tape(clock));
            if !result.NameEmptyAfterSanitize? && tape(clock).Killed? then whole == BatchEnd(dev', results, true)
            else
              var cache' := if result.Upserted? then Remembered(cache, result.uid, reqs[i].user.userId) else cache;
              BatchGoesOn(whole, results + [result], dev', cache', reqs, i + 1, tape,
                          if result.NameEmptyAfterSanitize? then clock else clock + 1)
  {
    assert reqs[i..][0] == reqs[i] && reqs[i..][1..] == reqs[i + 1..];
    var (dev', result) := UpsertOne(dev, cache, reqs[i], tape(clock));
    if result.NameEmptyAfterSanitize? || !tape(clock).Killed? {
      var cache' := if result.Upserted? then Remembered(cache, result.uid, reqs[i].user.userId) else cache;
      var rest := Batch(dev', cache', reqs[i + 1..], tape, if result.NameEmptyAfterSanitize? then clock else clock + 1);
      assert results + ([result] + rest.results) == results + [result] + rest.results;
    }
  }

  // ---- the code ----

  /** The user list as get_users returns it. */
  function ListOf(rows: seq<UserRow>): Cache {
    seq(|rows|, i requires 0 <= i < |rows| => (rows[i].uid, rows[i].user.userId))
  }

  method FindUser(cache: Cache, id: string) returns (slot: Option<Uid>)
    ensures slot == FirstFor(cache, id)
  {
    var i := 0;
    assert cache[0..] == cache;
    while i < |cache|
      invariant 0 <= i <= |cache| && FirstFor(cache, id) == FirstFor(cache[i..], id)
    {
      if cache[i].1 == id { return Some(cache[i].0); }
      assert cache[i..][1..] == cache[i + 1..];
      i := i + 1;
    }
    return None;
  }

  method CollectUids(cache: Cache) returns (used: set<Uid>)
    ensures used == TakenIn(cache)
  {
    used := {};
    for i := 0 to |cache|
      invariant used == TakenIn(cache[..i])
    {
      assert cache[..i + 1] == cache[..i] + [cache[i]];
      used := used + {cache[i].0};
    }
    assert cache[..|cache|] == cache;
  }

  method DoSetUser(dev: Device, req: Request, cache: Cache, outcome: Outcome) returns (dev': Device, result: Upserted)
    ensures (dev', result) == UpsertOne(dev, cache, req, outcome)
  {
    var uid;
    if req.uid.Some? {
      uid := req.uid.value;
    } else {
      var existing := FindUser(cache, req.user.userId);
      if existing.Some? {
        uid := existing.value;
      } else {
        var used := CollectUids(cache);
        uid := NextFreeUid(used);
      }
    }
    var safeName := SafeName(req.user.name);
    if safeName == "" {
      return dev, NameEmptyAfterSanitize;
    }
    dev' := SetUser(dev, uid, req.user.(name := safeName), outcome);
    result := if outcome.Done? then Upserted(uid) else SetUserFailed;
  }

  // ---- what it is for ----

  /** What one upsert means: the user with this id is created or has its record replaced, keeping its templates. */
  function UpsertView(v: View, user: User, o: Outcome): View {
    if SafeName(user.name) == "" || !o.Applied() then v
    else v[user.userId := Slot(Sanitized(user), if user.userId in v then v[user.userId].prints else map[])]
  }

  function UpsertAll(v: View, reqs: seq<Request>, tape: Tape, clock: nat): View
    decreases |reqs|
  {
    if reqs == [] then v else
    var user := reqs[0].user;
    if SafeName(user.name) == "" then UpsertAll(v, reqs[1..], tape, clock)
    else if tape(clock).Killed? then UpsertView(v, user, tape(clock))
    else UpsertAll(UpsertView(v, user, tape(clock)), reqs[1..], tape, clock + 1)
  }

  /** The cached list names exactly the users on the device, each with its slots. */
  ghost predicate Cached(dev: Device, cache: Cache) {
    && (forall row | row in cache :: Occupies(dev, row.0, row.1))
    && (forall uid: Uid, id: string :: Occupies(dev, uid, id) ==> (uid, id) in cache)
  }

  lemma ListIsCached(dev: Device, rows: seq<UserRow>)
    requires UserRows(dev, rows)
    ensures Cached(dev, ListOf(rows))
  {
    forall row | row in ListOf(rows) ensures Occupies(dev, row.0, row.1) {
      var i :| 0 <= i < |rows| && ListOf(rows)[i] == row;
      assert UserRow(rows[i].uid, rows[i].user) in rows;
    }
    forall uid: Uid, id: string | Occupies(dev, uid, id) ensures (uid, id) in ListOf(rows) {
      assert UserRow(uid, dev.slots[uid].user) in rows;
      var i :| 0 <= i < |rows| && rows[i] == UserRow(uid, dev.slots[uid].user);
      assert ListOf(rows)[i] == (uid, id);
    }
  }

  /** Every set_user on an occupied slot so far, from k on, was for the user already there. */
  ghost predicate OnlyOwnSlots(replaced: seq<(string, string)>, k: nat) {
    k <= |replaced| && forall i | k <= i < |replaced| :: replaced[i].0 == replaced[i].1
  }

  /** A user the device had keeps exactly its slots, and one it did not have comes to sit in one slot at most. */
  ghost predicate SlotsStay(dev: Device, dev': Device) {
    forall id :: StaysAt(dev, dev', id)
  }

  ghost predicate StaysAt(dev: Device, dev': Device, id: string) {
    if InNoSlot(dev, id) then InOneSlot(dev', id) else forall u :: Occupies(dev', u, id) <==> Occupies(dev, u, id)
  }

  lemma StaysChain(a: Device, b: Device, c: Device)
    requires SlotsStay(a, b) && SlotsStay(b, c)
    ensures SlotsStay(a, c)
  {
    forall id ensures StaysAt(a, c, id) {
      assert StaysAt(a, b, id) && StaysAt(b, c, id);
    }
  }

  /** A slot the bridge chooses is the user's own, or the least number free on the device. */
  lemma ChosenSlot(dev: Device, cache: Cache, req: Request)
    requires Cached(dev, cache) && req.uid.None?
    ensures var uid := SlotFor(cache, req);
            || Occupies(dev, uid, req.user.userId)
            || (&& 1 <= uid && uid !in dev.slots && (forall k: Uid | 1 <= k < uid :: k in dev.slots)
                && InNoSlot(dev, req.user.userId))
  {
    var uid := SlotFor(cache, req);
    if FirstFor(cache, req.user.userId).None? {
      assert uid in dev.slots ==> Occupies(dev, uid, dev.slots[uid].user.userId);
      forall k | k in TakenIn(cache) ensures k in dev.slots {
        var row :| row in cache && row.0 == k;
      }
    }
  }

  lemma SetShows(dev: Device, v: View, uid: Uid, user: User, o: Outcome)
    requires Shows(dev, v) && SafeName(user.name) != ""
    requires Occupies(dev, uid, user.userId) || (uid !in dev.slots && user.userId !in v)
    ensures Shows(SetUser(dev, uid, Sanitized(user), o), UpsertView(v, user, o))
  {
    var dev' := SetUser(dev, uid, Sanitized(user), o);
    if !o.Applied() {
      assert forall u, id :: Occupies(dev', u, id) <==> Occupies(dev, u, id);
    } else {
      assert dev' == SetUser(dev, uid, Sanitized(user), Done);
      if uid in dev.slots {
        UpdateShows(dev, v, uid, Sanitized(user));
      } else {
        CreateShows(dev, v, uid, Sanitized(user));
      }
    }
  }

  /** Who sits where after a set_user on the user's own slot or a free one. */
  lemma SetOccupies(dev: Device, uid: Uid, user: User, o: Outcome, u: Uid, id: string)
    requires Occupies(dev, uid, user.userId) || uid !in dev.slots
    ensures Occupies(SetUser(dev, uid, Sanitized(user), o), u, id) <==>
            Occupies(dev, u, id) || (o.Applied() && u == uid && id == user.userId)
  {
  }

  lemma SetStays(dev: Device, uid: Uid, user: User, o: Outcome)
    requires Occupies(dev, uid, user.userId) || (uid !in dev.slots && InNoSlot(dev, user.userId))
    ensures SlotsStay(dev, SetUser(dev, uid, Sanitized(user), o))
  {
    var dev' := SetUser(dev, uid, Sanitized(user), o);
    forall id ensures StaysAt(dev, dev', id) {
      forall u ensures Occupies(dev', u, id) <==> Occupies(dev, u, id) || (o.Applied() && u == uid && id == user.userId) {
        SetOccupies(dev, uid, user, o, u, id);
      }
    }
  }

  lemma RememberedIsCached(dev: Device, dev': Device, cache: Cache, uid: Uid, id: string)
    requires Cached(dev, cache) && (Occupies(dev, uid, id) || InNoSlot(dev, id))
    requires forall u, i :: Occupies(dev', u, i) <==> Occupies(dev, u, i) || (u == uid && i == id)
    ensures Cached(dev', Remembered(cache, uid, id))
  {
  }

  /** One upsert into a slot the bridge chooses, on any device: no other user's slot is written, users stay in their
      slots, and the list stays right unless the call raised after taking effect. */
  lemma OneIsSafe(dev: Device, cache: Cache, req: Request, o: Outcome)
    requires Cached(dev, cache) && req.uid.None? && o != Raised(true)
    ensures var (dev', result) := UpsertOne(dev, cache, req, o);
            var cache' := if result.Upserted? then Remembered(cache, result.uid, req.user.userId) else cache;
            && dev.replaced <= dev'.replaced && OnlyOwnSlots(dev'.replaced, |dev.replaced|) && SlotsStay(dev, dev')
            && (result.Upserted? ==> Occupies(dev', result.uid, req.user.userId))
            && (!o.Killed? || result.NameEmptyAfterSanitize? ==> Cached(dev', cache'))
  {
    if SafeName(req.user.name) != "" {
      var uid, id := SlotFor(cache, req), req.user.userId;
      var dev' := SetUser(dev, uid, Sanitized(req.user), o);
      ChosenSlot(dev, cache, req);
      SetStays(dev, uid, req.user, o);
      forall u, i ensures Occupies(dev', u, i) <==> Occupies(dev, u, i) || (o.Applied() && u == uid && i == id) {
        SetOccupies(dev, uid, req.user, o, u, i);
      }
      if o.Done? { RememberedIsCached(dev, dev', cache, uid, id); }
    } else {
      assert forall id :: StaysAt(dev, dev, id);
    }
  }

  /** Each result is right about its user: refused for its name alone, or in the slot named. */
  ghost predicate ResultsHold(dev: Device, reqs: seq<Request>, results: seq<Upserted>) {
    |results| <= |reqs| &&
    forall i | 0 <= i < |results| ::
      && (results[i].NameEmptyAfterSanitize? <==> SafeName(reqs[i].user.name) == "")
      && (results[i].Upserted? ==> Occupies(dev, results[i].uid, reqs[i].user.userId))
  }

  ghost predicate SlotsLeftOpen(reqs: seq<Request>) {
    forall i | 0 <= i < |reqs| :: reqs[i].uid.None?
  }

  lemma OwnSlotsChain(a: seq<(string, string)>, b: seq<(string, string)>, k: nat)
    requires OnlyOwnSlots(a, k) && a <= b && OnlyOwnSlots(b, |a|)
    ensures OnlyOwnSlots(b, k)
  {
  }

  /** What holds of a safe batch. */
  ghost predicate BatchSafe(dev: Device, reqs: seq<Request>, end: BatchEnd) {
    && dev.replaced <= end.dev.replaced && OnlyOwnSlots(end.dev.replaced, |dev.replaced|) && SlotsStay(dev, end.dev)
    && ResultsHold(end.dev, reqs, end.results) && (!end.died ==> |end.results| == |reqs|)
  }

  lemma ResultsPrepend(dev: Device, reqs: seq<Request>, result: Upserted, rest: seq<Upserted>)
    requires reqs != [] && ResultsHold(dev, reqs[1..], rest)
    requires result.NameEmptyAfterSanitize? <==> SafeName(reqs[0].user.name) == ""
    requires result.Upserted? ==> Occupies(dev, result.uid, reqs[0].user.userId)
    ensures ResultsHold(dev, reqs, [result] + rest)
  {
  }

  lemma StaysThere(dev: Device, dev': Device, u: Uid, id: string)
    requires SlotsStay(dev, dev') && Occupies(dev, u, id)
    ensures Occupies(dev', u, id)
  {
    assert StaysAt(dev, dev', id);
  }

  /** The whole batch, with slots left to the bridge and no call failing after taking effect, on any device: whatever
      fails or wherever the process dies, no other user's slot is written, users stay in their slots and new ones get
      one, and every result is right. */
  lemma {:induction false} BatchIsSafe(dev: Device, cache: Cache, reqs: seq<Request>, tape: Tape, clock: nat)
    requires Cached(dev, cache) && SlotsLeftOpen(reqs) && forall i: nat :: tape(i) != Raised(true)
    ensures BatchSafe(dev, reqs, Batch(dev, cache, reqs, tape, clock))
    decreases |reqs|
  {
    if reqs == [] {
      assert forall id :: StaysAt(dev, dev, id);
    } else {
      var (dev', result) := UpsertOne(dev, cache, reqs[0], tape(clock));
      OneIsSafe(dev, cache, reqs[0], tape(clock));
      if result.NameEmptyAfterSanitize? || !tape(clock).Killed? {
        var cache' := if result.Upserted? then Remembered(cache, result.uid, reqs[0].user.userId) else cache;
        var clock' := if result.NameEmptyAfterSanitize? then clock else clock + 1;
        BatchIsSafe(dev', cache', reqs[1..], tape, clock');
        var rest := Batch(dev', cache', reqs[1..], tape, clock');
        OwnSlotsChain(dev'.replaced, rest.dev.replaced, |dev.replaced|);
        StaysChain(dev, dev', rest.dev);
        if result.Upserted? { StaysThere(dev', rest.dev, result.uid, reqs[0].user.userId); }
        ResultsPrepend(rest.dev, reqs, result, rest.results);
      }
    }
  }

  /** And on a device that holds each id in one slot, it is the upserts by id, one after the other. */
  lemma {:induction false} BatchShows(dev: Device, v: View, cache: Cache, reqs: seq<Request>, tape: Tape, clock: nat)
    requires Shows(dev, v) && Cached(dev, cache) && SlotsLeftOpen(reqs) && forall i: nat :: tape(i) != Raised(true)
    ensures Shows(Batch(dev, cache, reqs, tape, clock).dev, UpsertAll(v, reqs, tape, clock))
    decreases |reqs|
  {
    if reqs != [] {
      var (dev', result) := UpsertOne(dev, cache, reqs[0], tape(clock));
      OneIsSafe(dev, cache, reqs[0], tape(clock));
      if !result.NameEmptyAfterSanitize? {
        ChosenSlot(dev, cache, reqs[0]);
        SetShows(dev, v, SlotFor(cache, reqs[0]), reqs[0].user, tape(clock));
      }
      if result.NameEmptyAfterSanitize? || !tape(clock).Killed? {
        var cache' := if result.Upserted? then Remembered(cache, result.uid, reqs[0].user.userId) else cache;
        var clock' := if result.NameEmptyAfterSanitize? then clock else clock + 1;
        var v' := if result.NameEmptyAfterSanitize? then v else UpsertView(v, reqs[0].user, tape(clock));
        BatchShows(dev', v', cache', reqs[1..], tape, clock');
      }
    }
  }

  // ---- what is stored and reported ----

  /** An upsert of a usable name that takes effect stores the request's own record, its name as far as the device can,
      in one slot: the one the request names, if it names one. Templates there stay, and no other slot changes. */
  lemma UpsertStores(dev: Device, cache: Cache, req: Request, o: Outcome)
    ensures var (dev', result) := UpsertOne(dev, cache, req, o);
            if Nameless(req.user.name) || !o.Applied() then dev'.slots == dev.slots
            else
              exists uid :: StoredIn(dev, dev', uid, req) && (req.uid.Some? ==> uid == req.uid.value)
                            && (result.Upserted? ==> uid == result.uid)
  {
    NamelessIff(req.user.name);
    SafeNameIsDeviceName(req.user.name);
    if SafeName(req.user.name) != "" && o.Applied() {
      assert StoredIn(dev, UpsertOne(dev, cache, req, o).0, SlotFor(cache, req), req);
    }
  }

  ghost predicate StoredIn(dev: Device, dev': Device, uid: Uid, req: Request) {
    && uid in dev'.slots && Renames(dev'.slots[uid].user, req.user, req.user.userId)
    && dev'.slots[uid].prints == (if uid in dev.slots then dev.slots[uid].prints else map[])
    && (forall u | u != uid :: u in dev'.slots <==> u in dev.slots)
    && (forall u | u != uid && u in dev.slots :: dev'.slots[u] == dev.slots[u])
  }

  /** The number of the device call request i makes, if it makes one: requests without a usable name make none. */
  function CallOf(reqs: seq<Request>, i: nat): nat
    requires i <= |reqs|
  {
    if i == 0 then 0 else CallOf(reqs, i - 1) + if Nameless(reqs[i - 1].user.name) then 0 else 1
  }

  /** The result of a request is ok exactly if its name is usable and its call returned, set_user's error exactly if the
      call raised, and the name's error exactly if it is not usable. */
  predicate ReportsCall(result: Upserted, req: Request, o: Outcome) {
    && (result.Upserted? <==> !Nameless(req.user.name) && o.Done?)
    && (result.SetUserFailed? <==> !Nameless(req.user.name) && o.Raised?)
    && (result.NameEmptyAfterSanitize? <==> Nameless(req.user.name))
  }

  /** Every request has its report, up to the one whose call the process died in, if it died. */
  ghost predicate Reported(reqs: seq<Request>, end: BatchEnd, tape: Tape, clock: nat) {
    && |end.results| <= |reqs|
    && (forall i | 0 <= i < |end.results| :: ReportedAt(reqs, end, tape, clock, i))
    && (!end.died ==> |end.results| == |reqs|)
    && (end.died ==> |end.results| < |reqs| && tape(clock + CallOf(reqs, |end.results|)).Killed?)
  }

  ghost predicate ReportedAt(reqs: seq<Request>, end: BatchEnd, tape: Tape, clock: nat, i: nat)
    requires i < |end.results| <= |reqs|
  {
    ReportsCall(end.results[i], reqs[i], tape(clock + CallOf(reqs, i)))
  }

  lemma {:induction false} CallOfRest(reqs: seq<Request>, i: nat)
    requires 0 < i <= |reqs|
    ensures CallOf(reqs, i) == CallOf(reqs[1..], i - 1) + if Nameless(reqs[0].user.name) then 0 else 1
  {
    if i > 1 {
      CallOfRest(reqs, i - 1);
    }
  }

  /** For any requests, any list and any device, whatever fails. */
  lemma {:induction false} BatchReports(dev: Device, cache: Cache, reqs: seq<Request>, tape: Tape, clock: nat)
    ensures Reported(reqs, Batch(dev, cache, reqs, tape, clock), tape, clock)
    decreases |reqs|
  {
    if reqs != [] {
      var (dev', result) := UpsertOne(dev, cache, reqs[0], tape(clock));
      NamelessIff(reqs[0].user.name);
      if result.NameEmptyAfterSanitize? || !tape(clock).Killed? {
        var cache' := if result.Upserted? then Remembered(cache, result.uid, reqs[0].user.userId) else cache;
        var clock' := if result.NameEmptyAfterSanitize? then clock else clock + 1;
        BatchReports(dev', cache', reqs[1..], tape, clock');
        ReportsFirst(reqs, result, Batch(dev', cache', reqs[1..], tape, clock'), tape, clock, clock');
      }
    }
  }

  lemma ReportsFirst(reqs: seq<Request>, result: Upserted, rest: BatchEnd, tape: Tape, clock: nat, clock': nat)
    requires reqs != [] && Reported(reqs[1..], rest, tape, clock') && ReportsCall(result, reqs[0], tape(clock))
    requires clock' == clock + if Nameless(reqs[0].user.name) then 0 else 1
    ensures Reported(reqs, rest.(results := [result] + rest.results), tape, clock)
  {
    var end := rest.(results := [result] + rest.results);
    forall i | 0 <= i < |end.results| ensures ReportedAt(reqs, end, tape, clock, i) {
      if i > 0 {
        CallOfRest(reqs, i);
        assert ReportedAt(reqs[1..], rest, tape, clock', i - 1);
        assert end.results[i] == rest.results[i - 1] && reqs[i] == reqs[1..][i - 1];
      }
    }
    if end.died { CallOfRest(reqs, |end.results|); }
  }

  // ---- when a call raises after taking effect ----

  /** The list as it is kept, and perhaps one user it misses, who sits in the slot the next new user will get. */
  ghost predicate InStep(dev: Device, cache: Cache, missed: Option<string>) {
    && (forall row | row in cache :: Occupies(dev, row.0, row.1))
    && (forall uid: Uid, id: string | Occupies(dev, uid, id) ::
          (uid, id) in cache || (missed == Some(id) && uid == FreeFrom(TakenIn(cache), 1)))
    && (missed.Some? ==> Occupies(dev, FreeFrom(TakenIn(cache), 1), missed.value) && FirstFor(cache, missed.value).None?)
  }

  /** A new user is sent to the device while the list misses another: that other's slot is the one it gets. */
  predicate Collides(cache: Cache, missed: Option<string>, reqs: seq<Request>, tape: Tape, clock: nat)
    decreases |reqs|
  {
    if reqs == [] then false else
    var id, o, rest := reqs[0].user.userId, tape(clock), reqs[1..];
    if SafeName(reqs[0].user.name) == "" then Collides(cache, missed, rest, tape, clock)
    else if FirstFor(cache, id).Some? then !o.Killed? && Collides(cache, missed, rest, tape, clock + 1)
    else if missed.Some? && missed.value != id then true
    else match o
         case Killed(_) => false
         case Raised(effect) => Collides(cache, if effect then Some(id) else missed, rest, tape, clock + 1)
         case Done => Collides(cache + [(FreeFrom(TakenIn(cache), 1), id)], None, rest, tape, clock + 1)
  }

  /** The slot chosen is held by another user exactly when the list misses one and this is a new user. */
  lemma ChosenInStep(dev: Device, cache: Cache, req: Request, missed: Option<string>)
    requires InStep(dev, cache, missed) && req.uid.None?
    ensures var uid, id := SlotFor(cache, req), req.user.userId;
            && (FirstFor(cache, id).Some? ==> Occupies(dev, uid, id))
            && (FirstFor(cache, id).None? && missed == None ==> uid !in dev.slots && InNoSlot(dev, id))
            && (FirstFor(cache, id).None? && missed.Some? ==> Occupies(dev, uid, missed.value))
            && (FirstFor(cache, id).None? ==> forall u | Occupies(dev, u, id) :: u == uid && missed == Some(id))
  {
    var uid := SlotFor(cache, req);
    if uid in dev.slots { assert Occupies(dev, uid, dev.slots[uid].user.userId); }
    forall row | row in cache ensures row.0 in TakenIn(cache) { }
  }

  /** The next state of the list, if there is no collision now. */
  lemma StepInStep(dev: Device, cache: Cache, req: Request, o: Outcome, missed: Option<string>)
    requires InStep(dev, cache, missed) && req.uid.None? && SafeName(req.user.name) != "" && !o.Killed?
    requires FirstFor(cache, req.user.userId).Some? || missed == None || missed == Some(req.user.userId)
    ensures var (dev', result) := UpsertOne(dev, cache, req, o);
            var id := req.user.userId;
            var cache' := if result.Upserted? then Remembered(cache, result.uid, id) else cache;
            && dev.replaced <= dev'.replaced && OnlyOwnSlots(dev'.replaced, |dev.replaced|)
            && InStep(dev', cache', if FirstFor(cache, id).Some? then missed else if o.Done? then None
                                    else if o.Applied() then Some(id) else missed)
  {
    var uid, id := SlotFor(cache, req), req.user.userId;
    var dev' := SetUser(dev, uid, Sanitized(req.user), o);
    ChosenInStep(dev, cache, req, missed);
    forall u, i ensures Occupies(dev', u, i) <==> Occupies(dev, u, i) || (o.Applied() && u == uid && i == id) {
      SetOccupies(dev, uid, req.user, o, u, i);
    }
  }

  lemma {:induction false} BatchExtends(dev: Device, cache: Cache, reqs: seq<Request>, tape: Tape, clock: nat)
    ensures dev.replaced <= Batch(dev, cache, reqs, tape, clock).dev.replaced
    decreases |reqs|
  {
    if reqs != [] {
      var (dev', result) := UpsertOne(dev, cache, reqs[0], tape(clock));
      if result.NameEmptyAfterSanitize? || !tape(clock).Killed? {
        var cache' := if result.Upserted? then Remembered(cache, result.uid, reqs[0].user.userId) else cache;
        BatchExtends(dev', cache', reqs[1..], tape, if result.NameEmptyAfterSanitize? then clock else clock + 1);
      }
    }
  }

  /** The new user takes the missed one's slot, which leaves that one on no slot. */
  lemma CollisionIsNoted(dev: Device, cache: Cache, req: Request, o: Outcome, missed: Option<string>)
    requires InStep(dev, cache, missed) && req.uid.None? && SafeName(req.user.name) != ""
    requires FirstFor(cache, req.user.userId).None? && missed.Some? && missed.value != req.user.userId
    ensures var dev' := UpsertOne(dev, cache, req, o).0;
            dev'.replaced == dev.replaced + [(missed.value, req.user.userId)] && (o.Applied() ==> InNoSlot(dev', missed.value))
  {
    ChosenInStep(dev, cache, req, missed);
    ChosenInStep(dev, cache, Request(req.user.(userId := missed.value), None), missed);
    var dev' := UpsertOne(dev, cache, req, o).0;
    forall u | o.Applied() && Occupies(dev', u, missed.value) ensures false {
      assert u != SlotFor(cache, req) ==> Occupies(dev, u, missed.value);
    }
  }

  /** Exactly when a batch that leaves slots to the bridge writes another user's slot, whatever fails: a call for a
      new user raised after taking effect, and before that user was sent again with success another new one was. */
  lemma {:induction false} OverwritesIff(dev: Device, cache: Cache, reqs: seq<Request>, tape: Tape, clock: nat, missed: Option<string>)
    requires InStep(dev, cache, missed) && SlotsLeftOpen(reqs)
    ensures OnlyOwnSlots(Batch(dev, cache, reqs, tape, clock).dev.replaced, |dev.replaced|) <==> !Collides(cache, missed, reqs, tape, clock)
    decreases |reqs|
  {
    if reqs != [] {
      var req, o, id := reqs[0], tape(clock), reqs[0].user.userId;
      var (dev', result) := UpsertOne(dev, cache, req, o);
      var cache' := if result.Upserted? then Remembered(cache, result.uid, id) else cache;
      if SafeName(req.user.name) == "" {
        OverwritesIff(dev, cache, reqs[1..], tape, clock, missed);
      } else if FirstFor(cache, id).None? && missed.Some? && missed.value != id {
        CollisionIsNoted(dev, cache, req, o, missed);
        if !o.Killed? { BatchExtends(dev', cache', reqs[1..], tape, clock + 1); }
        assert Batch(dev, cache, reqs, tape, clock).dev.replaced[|dev.replaced|] == (missed.value, id);
      } else if o.Killed? {
        ChosenInStep(dev, cache, req, missed);
      } else {
        StepInStep(dev, cache, req, o, missed);
        var missed' := if FirstFor(cache, id).Some? then missed else if o.Done? then None else if o.Applied() then Some(id) else missed;
        OverwritesIff(dev', cache', reqs[1..], tape, clock + 1, missed');
        BatchExtends(dev', cache', reqs[1..], tape, clock + 1);
        OwnSlotsFrom(dev'.replaced, Batch(dev', cache', reqs[1..], tape, clock + 1).dev.replaced, |dev.replaced|);
      }
    }
  }

  lemma OwnSlotsFrom(a: seq<(string, string)>, b: seq<(string, string)>, k: nat)
    requires OnlyOwnSlots(a, k) && a <= b
    ensures OnlyOwnSlots(b, k) <==> OnlyOwnSlots(b, |a|)
  {
    if OnlyOwnSlots(b, |a|) { OwnSlotsChain(a, b, k); }
  }

  // ---- when a request names the slot ----

  /** It goes to another user's slot exactly when that slot is another user's. */
  lemma NamedSlotIff(dev: Device, cache: Cache, req: Request, o: Outcome)
    requires Cached(dev, cache) && SafeName(req.user.name) != ""
    ensures OnlyOwnSlots(UpsertOne(dev, cache, req, o).0.replaced, |dev.replaced|) <==>
            !(req.uid.Some? && exists id :: Occupies(dev, req.uid.value, id) && id != req.user.userId)
  {
    var uid := SlotFor(cache, req);
    if req.uid.None? {
      ChosenSlot(dev, cache, req);
    } else if uid in dev.slots {
      assert Occupies(dev, uid, dev.slots[uid].user.userId);
      var replaced := UpsertOne(dev, cache, req, o).0.replaced;
      assert replaced[|dev.replaced|] == (dev.slots[uid].user.userId, req.user.userId);
    }
  }

  /** A free slot named for a user who has another one already: the user is then in both, which no view by id shows,
      and a rename that reports success for it leaves it on the device. */
  lemma NamedSlotDoubles(dev: Device, cache: Cache, user: User, w: Uid, u: Uid, read: Reader, pairs: seq<Pair>, tape: Tape, k: nat)
    requires SafeName(user.name) != "" && w !in dev.slots && Occupies(dev, u, user.userId)
    ensures var (dev', result) := UpsertOne(dev, cache, Request(user, Some(w)), Done);
            && result == Upserted(w) && dev'.replaced == dev.replaced
            && Occupies(dev', u, user.userId) && Occupies(dev', w, user.userId) && (forall v :: !Shows(dev', v))
            && (Truthful(read) && k < |pairs| && pairs[k].oldId == user.userId && user.userId !in NewIds(pairs) ==>
                  var end := Handled(dev', pairs, read, tape);
                  k < |end.results| && end.results[k].status.Success() ==> !InNoSlot(end.dev, user.userId))
  {
    var dev' := UpsertOne(dev, cache, Request(user, Some(w)), Done).0;
    assert Occupies(dev', u, user.userId) && Occupies(dev', w, user.userId) && u != w;
    if Truthful(read) && k < |pairs| && pairs[k].oldId == user.userId && user.userId !in NewIds(pairs) {
      var end := Handled(dev', pairs, read, tape);
      if k < |end.results| && end.results[k].status.Success() {
        SlotGoneIff(dev', pairs, read, tape, k);
      }
    }
  }

  // ---- the endpoint ----

  lemma BatchKeeps(dev: Device, reqs: seq<Request>, read: Reader, tape: Tape)
    ensures Truthful(read) && SlotsLeftOpen(reqs) ==>
              var cache := ListOf(read(dev).0);
              var end := Batch(dev, cache, reqs, tape, 0);
              && ((forall i: nat :: tape(i) != Raised(true)) ==> BatchSafe(dev, reqs, end))
              && (OnlyOwnSlots(end.dev.replaced, |dev.replaced|) <==> !Collides(cache, None, reqs, tape, 0))
  {
    if Truthful(read) && SlotsLeftOpen(reqs) {
      var cache := ListOf(read(dev).0);
      ListIsCached(dev, read(dev).0);
      OverwritesIff(dev, cache, reqs, tape, 0, None);
      if forall i: nat :: tape(i) != Raised(true) {
        BatchIsSafe(dev, cache, reqs, tape, 0);
      }
    }
  }

  /** The requests one by one, with a list that grows. */
  method UpsertEach(dev: Device, reqs: seq<Request>, list: Cache, tape: Tape) returns (dev': Device, results: seq<Upserted>, died: bool)
    ensures Batch(dev, list, reqs, tape, 0) == BatchEnd(dev', results, died)
  {
    dev', results := dev, [];
    var known, clock := list, 0;
    ghost var whole := Batch(dev, known, reqs, tape, 0);
    assert reqs[0..] == reqs;
    for i := 0 to |reqs|
      invariant BatchGoesOn(whole, results, dev', known, reqs, i, tape, clock)
    {
      BatchStep(whole, results, dev', known, reqs, i, tape, clock);
      var result;
      dev', result := DoSetUser(dev', reqs[i], known, tape(clock));
      if !result.NameEmptyAfterSanitize? {
        if tape(clock).Killed? { return dev', results, true; }
        clock := clock + 1;
      }
      results := results + [result];
      if result.Upserted? {
        var present := FindUser(known, reqs[i].user.userId);
        if present.None? {
          known := known + [(result.uid, reqs[i].user.userId)];
        }
      }
    }
    return dev', results, false;
  }

  /** One bulk request: the user list is read once. */
  method BulkUpsert(dev: Device, reqs: seq<Request>, read: Reader, tape: Tape) returns (dev': Device, results: seq<Upserted>, died: bool)
    ensures Batch(dev, ListOf(read(dev).0), reqs, tape, 0) == BatchEnd(dev', results, died)
    ensures Reported(reqs, BatchEnd(dev', results, died), tape, 0)
    ensures Truthful(read) && SlotsLeftOpen(reqs) ==>
              && ((forall i: nat :: tape(i) != Raised(true)) ==> BatchSafe(dev, reqs, BatchEnd(dev', results, died)))
              && (OnlyOwnSlots(dev'.replaced, |dev.replaced|) <==> !Collides(ListOf(read(dev).0), None, reqs, tape, 0))
  {
    dev', results, died := UpsertEach(dev, reqs, ListOf(read(dev).0), tape);
    BatchReports(dev, ListOf(read(dev).0), reqs, tape, 0);
    BatchKeeps(dev, reqs, read, tape);
  }
}
