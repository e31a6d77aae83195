/** Rename requests that overlap on one device. The script gives a chunk up after ten minutes and sends the next, the
    bridge takes no lock, and each request chooses slots from its own tables. */
module RenameOverlap {
  import opened BiometricDevice
  import opened RenameReference
  import opened RenameSlots

  /** One device call, or the opening, of request r. Skip is a slot allocated for a user that cannot be named. */
  datatype Event =
    | Open(r: int)
    | Create(r: int, user: User, o: Outcome)
    | Delete(r: int, id: string, o: Outcome)
    | Save(r: int, uid: Uid, finger: Finger, template: Template, o: Outcome)
    | Skip(r: int)

  /** The device, and the tables of each request. */
  datatype World = World(dev: Device, requests: map<int, Tables>)

  predicate Enabled(w: World, e: Event) {
    e.Open? ||
    (&& e.r in w.requests
     && (e.Create? ==> e.user.userId !in w.requests[e.r].byUserId)
     && (e.Delete? ==> e.id in w.requests[e.r].byUserId))
  }

  /** The slot a request creates its next user in. */
  function NextSlot(w: World, r: int): Uid
    requires r in w.requests
  {
    FreeFrom(w.requests[r].used, 1)
  }

  function Step(w: World, e: Event, read: Reader): World
    requires Enabled(w, e)
  {
    match e
    case Open(r) => World(w.dev, w.requests[r := TablesOf(read(w.dev).0, read(w.dev).1)])
    case Create(r, user, o) =>
      var t := w.requests[r];
      World(SetUser(w.dev, NextSlot(w, r), user, o), w.requests[r := if o.Done? then Created(t, user) else Allocated(t)])
    case Delete(r, id, o) =>
      var t := w.requests[r];
      World(DeleteUser(w.dev, t.byUserId[id].uid, o), w.requests[r := if o.Done? then Forget(t, id) else t])
    case Save(r, uid, finger, template, o) => w.(dev := SaveTemplate(w.dev, uid, finger, template, o))
    case Skip(r) => w.(requests := w.requests[r := Allocated(w.requests[r])])
  }

  /** Any interleaving of any number of requests. */
  ghost predicate Run(worlds: seq<World>, events: seq<Event>, read: Reader) {
    && |worlds| == |events| + 1 && worlds[0].requests == map[]
    && forall i | 0 <= i < |events| :: Enabled(worlds[i], events[i]) && worlds[i + 1] == Step(worlds[i], events[i], read)
  }

  /** The slots that other requests have filled since request r opened, and nobody has emptied since. */
  function FilledByOthers(worlds: seq<World>, events: seq<Event>, n: nat, r: int): set<Uid>
    requires n <= |events| && |worlds| == |events| + 1
    requires forall i | 0 <= i < |events| :: Enabled(worlds[i], events[i])
  {
    if n == 0 then {} else
    var w, e, before := worlds[n - 1], events[n - 1], FilledByOthers(worlds, events, n - 1, r);
    match e
    case Open(q) => if q == r then {} else before
    case Create(q, _, o) => if q != r && o.Applied() then before + {NextSlot(w, q)} else before
    case Delete(q, id, o) => if o.Applied() then before - {w.requests[q].byUserId[id].uid} else before
    case _ => before
  }

  /** What a request does not know to be taken is what others have filled since. */
  ghost predicate Accounted(w: World, filled: set<Uid>, r: int)
    requires r in w.requests
  {
    w.dev.slots.Keys <= w.requests[r].used + filled && filled <= w.dev.slots.Keys
  }

  lemma OpenIsAccounted(dev: Device, read: Reader)
    requires Truthful(read)
    ensures dev.slots.Keys <= TablesOf(read(dev).0, read(dev).1).used
  {
    var (userRows, templateRows) := read(dev);
    assert UserRows(dev, userRows) && TemplateRows(dev, templateRows);
    OpenedFits(dev, userRows, templateRows);
  }

  lemma {:induction false} AlwaysAccounted(worlds: seq<World>, events: seq<Event>, read: Reader, n: nat, r: int)
    requires Run(worlds, events, read) && Truthful(read) && n <= |events| && r in worlds[n].requests
    ensures Accounted(worlds[n], FilledByOthers(worlds, events, n, r), r)
  {
    var w, e := worlds[n - 1], events[n - 1];
    assert Enabled(w, e) && worlds[n] == Step(w, e, read);
    if e == Open(r) {
      OpenIsAccounted(w.dev, read);
    } else {
      AlwaysAccounted(worlds, events, read, n - 1, r);
    }
  }

  /** A user is sent to an occupied slot exactly when another request has filled that slot since this one opened. */
  lemma OccupiedIff(worlds: seq<World>, events: seq<Event>, read: Reader, n: nat)
    requires Run(worlds, events, read) && Truthful(read) && n < |events| && events[n].Create?
    ensures var w, r := worlds[n], events[n].r;
            && (NextSlot(w, r) in w.dev.slots <==> NextSlot(w, r) in FilledByOthers(worlds, events, n, r))
            && (worlds[n + 1].dev.replaced == w.dev.replaced <==> NextSlot(w, r) !in FilledByOthers(worlds, events, n, r))
  {
    assert Enabled(worlds[n], events[n]) && worlds[n + 1] == Step(worlds[n], events[n], read);
    AlwaysAccounted(worlds, events, read, n, events[n].r);
  }

  ghost predicate Clash(worlds: seq<World>, events: seq<Event>, n: nat)
    requires n < |events| && |worlds| == |events| + 1
    requires forall i | 0 <= i < |events| :: Enabled(worlds[i], events[i])
  {
    Enabled(worlds[n], events[n]) && events[n].Create? && NextSlot(worlds[n], events[n].r) in FilledByOthers(worlds, events, n, events[n].r)
  }

  lemma StepNotes(w: World, e: Event, read: Reader)
    requires Enabled(w, e)
    ensures w.dev.replaced <= Step(w, e, read).dev.replaced
    ensures !e.Create? ==> Step(w, e, read).dev.replaced == w.dev.replaced
  {
  }

  lemma NotedIff(worlds: seq<World>, events: seq<Event>, read: Reader, n: nat)
    requires Run(worlds, events, read) && Truthful(read) && n < |events|
    ensures worlds[n].dev.replaced <= worlds[n + 1].dev.replaced
    ensures worlds[n + 1].dev.replaced == worlds[n].dev.replaced <==> !Clash(worlds, events, n)
  {
    assert Enabled(worlds[n], events[n]) && worlds[n + 1] == Step(worlds[n], events[n], read);
    StepNotes(worlds[n], events[n], read);
    if events[n].Create? { OccupiedIff(worlds, events, read, n); }
  }

  /** No occupied slot is written in an interleaving if and only if no creation clashes in that way. */
  lemma {:induction false} OverlapIsSafeIff(worlds: seq<World>, events: seq<Event>, read: Reader, n: nat)
    requires Run(worlds, events, read) && Truthful(read) && n <= |events|
    ensures worlds[0].dev.replaced <= worlds[n].dev.replaced
    ensures worlds[n].dev.replaced == worlds[0].dev.replaced <==> forall i | 0 <= i < n :: !Clash(worlds, events, i)
  {
    if n > 0 {
      OverlapIsSafeIff(worlds, events, read, n - 1);
      NotedIff(worlds, events, read, n - 1);
    }
  }

  /** A request does not clash as long as no other one creates a user after it opened. */
  lemma {:induction false} AloneIsSafe(worlds: seq<World>, events: seq<Event>, read: Reader, at: nat, n: nat, r: int)
    requires Run(worlds, events, read) && at < n <= |events| && events[at] == Open(r)
    requires forall i | at < i < n :: events[i].Create? ==> events[i].r == r || !events[i].o.Applied()
    ensures FilledByOthers(worlds, events, n, r) == {}
  {
    if n > at + 1 {
      AloneIsSafe(worlds, events, read, at, n - 1, r);
    }
  }

  /** But two requests that open one after the other and then both create a user choose the same slot, on any device. */
  lemma BothCreate(dev: Device, read: Reader, x: User, y: User, o: Outcome)
    requires Truthful(read) && InNoSlot(dev, x.userId) && InNoSlot(dev, y.userId)
    ensures var t := TablesOf(read(dev).0, read(dev).1);
            var w0 := World(dev, map[]);
            var w2 := Step(Step(w0, Open(0), read), Open(1), read);
            && Enabled(w2, Create(0, x, Done)) && Enabled(Step(w2, Create(0, x, Done), read), Create(1, y, o))
            && Step(Step(w2, Create(0, x, Done), read), Create(1, y, o), read).dev.replaced == dev.replaced + [(x.userId, y.userId)]
  {
    var (userRows, templateRows) := read(dev);
    assert UserRows(dev, userRows) && TemplateRows(dev, templateRows);
    OpenedFits(dev, userRows, templateRows);
    var t := TablesOf(userRows, templateRows);
    if x.userId in t.byUserId { OpenedRow(dev, userRows, x.userId); }
    if y.userId in t.byUserId { OpenedRow(dev, userRows, y.userId); }
    assert FreeFrom(t.used, 1) !in dev.slots;
  }

  // ---- a request is such events ----

  /** The events take w to w'. */
  ghost predicate Leads(w: World, events: seq<Event>, w': World, read: Reader)
    decreases |events|
  {
    if events == [] then w == w' else Enabled(w, events[0]) && Leads(Step(w, events[0], read), events[1..], w', read)
  }

  lemma {:induction false} LeadsOn(w: World, first: seq<Event>, w1: World, rest: seq<Event>, w2: World, read: Reader)
    requires Leads(w, first, w1, read) && Leads(w1, rest, w2, read)
    ensures Leads(w, first + rest, w2, read)
    decreases |first|
  {
    if first == [] {
      assert first + rest == rest;
    } else {
      LeadsOn(Step(w, first[0], read), first[1..], w1, rest, w2, read);
      assert (first + rest)[1..] == first[1..] + rest;
    }
  }

  lemma {:induction false} SavesLead(w: World, r: int, uid: Uid, pulled: Prints, tape: Tape, clock: nat, read: Reader)
    returns (events: seq<Event>)
    requires r in w.requests
    ensures Leads(w, events, w.(dev := SavePrints(w.dev, uid, pulled, tape, clock).dev), read)
    decreases |pulled|
  {
    events := [];
    if pulled != [] {
      var save := Save(r, uid, pulled[0].0, pulled[0].1, tape(clock));
      var rest := [];
      if tape(clock).Done? {
        rest := SavesLead(Step(w, save, read), r, uid, pulled[1..], tape, clock + 1, read);
      }
      events := [save] + rest;
      assert events[1..] == rest;
    }
  }

  lemma DeleteLeads(w: World, r: int, id: string, tape: Tape, clock: nat, ok: Status, failed: Status, read: Reader)
    requires r in w.requests && id in w.requests[r].byUserId
    ensures var run := DeleteRow(w.dev, w.requests[r], id, tape, clock, ok, failed);
            Leads(w, [Delete(r, id, tape(clock))], World(run.dev, w.requests[r := run.tables]), read)
  {
    var e := [Delete(r, id, tape(clock))];
    assert e[1..] == [];
  }

  lemma SaveAndDeleteLeads(w: World, r: int, p: Pair, pulled: Prints, tape: Tape, clock: nat, read: Reader) returns (events: seq<Event>)
    requires r in w.requests && p.oldId in w.requests[r].byUserId && p.newId in w.requests[r].byUserId
    ensures var run := SaveAndDelete(w.dev, w.requests[r], p, pulled, tape, clock);
            Leads(w, events, World(run.dev, w.requests[r := run.tables]), read)
  {
    var t := w.requests[r];
    var c := SavePrints(w.dev, t.byUserId[p.newId].uid, pulled, tape, clock);
    var saved := w.(dev := c.dev);
    events := SavesLead(w, r, t.byUserId[p.newId].uid, pulled, tape, clock, read);
    assert w.requests[r := t] == w.requests;
    if c.end.AllSaved? {
      var run := DeleteRow(c.dev, t, p.oldId, tape, c.clock, Ok(c.copied), DeleteOldFailed(c.copied));
      DeleteLeads(saved, r, p.oldId, tape, c.clock, Ok(c.copied), DeleteOldFailed(c.copied), read);
      LeadsOn(w, events, saved, [Delete(r, p.oldId, tape(c.clock))], World(run.dev, w.requests[r := run.tables]), read);
      events := events + [Delete(r, p.oldId, tape(c.clock))];
    }
  }

  /** A pair of a request does to the device and to the request's tables what some of these events do. */
  lemma PairLeads(w: World, r: int, p: Pair, tape: Tape, clock: nat, read: Reader) returns (events: seq<Event>)
    requires r in w.requests
    ensures var run := SlotPair(w.dev, w.requests[r], p, tape, clock);
            Leads(w, events, World(run.dev, w.requests[r := run.tables]), read)
  {
    var t := w.requests[r];
    events := [];
    assert w.requests[r := t] == w.requests;
    if p.oldId in t.byUserId {
      var row := t.byUserId[p.oldId];
      var pulled, user := PulledAt(t.templates, row.uid), NewUser(row.user, p.newId);
      if p.newId in t.byUserId {
        if PulledAt(t.templates, t.byUserId[p.newId].uid) == [] {
          events := SaveAndDeleteLeads(w, r, p, pulled, tape, clock, read);
        } else {
          DeleteLeads(w, r, p.oldId, tape, clock, OkRecovered, DeleteOldFailedInRecovery, read);
          DeleteLeads(w, r, p.oldId, tape, clock, OkResolvedConflict, DeleteOldFailedInConflict, read);
          events := [Delete(r, p.oldId, tape(clock))];
        }
      } else if SafeName(row.user.name) == "" {
        events := [Skip(r)];
        assert events[1..] == [];
      } else {
        events := CreateLeads(w, r, p, pulled, user, tape, clock, read);
      }
    }
  }

  lemma CreateLeads(w: World, r: int, p: Pair, pulled: Prints, user: User, tape: Tape, clock: nat, read: Reader)
    returns (events: seq<Event>)
    requires r in w.requests && p.newId !in w.requests[r].byUserId && p.oldId in w.requests[r].byUserId && user.userId == p.newId
    ensures var t := w.requests[r];
            var dev' := SetUser(w.dev, FreeFrom(t.used, 1), user, tape(clock));
            if tape(clock).Done? then
              var run := SaveAndDelete(dev', Created(t, user), p, pulled, tape, clock + 1);
              Leads(w, events, World(run.dev, w.requests[r := run.tables]), read)
            else Leads(w, events, World(dev', w.requests[r := Allocated(t)]), read)
  {
    var t, create := w.requests[r], Create(r, user, tape(clock));
    events := [create];
    assert events[1..] == [];
    if tape(clock).Done? {
      var w1 := Step(w, create, read);
      var rest := SaveAndDeleteLeads(w1, r, p, pulled, tape, clock + 1, read);
      var run := SaveAndDelete(w1.dev, Created(t, user), p, pulled, tape, clock + 1);
      assert w1.requests[r := run.tables] == w.requests[r := run.tables];
      LeadsOn(w, events, w1, rest, World(run.dev, w.requests[r := run.tables]), read);
      events := events + rest;
    }
  }
}
