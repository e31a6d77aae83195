/** What every reachable state of the weighbridge keeps, whatever the interleaving. */
module WeighbridgeSafety {
  import opened Common
  import opened WeighbridgeDb
  import opened WeighbridgeSync

  /** A complete weighment has its weights assigned by direction and a non-negative net. */
  predicate Weighed(w: Weighment) {
    w.status == Complete ==>
      && w.first.Some? && w.second.Some?
      && w.gross == (if w.direction == "IN" then w.first else w.second)
      && w.tare == (if w.direction == "IN" then w.second else w.first)
      && w.net == Some(w.gross.value - w.tare.value) && w.net.value >= 0.0
  }

  ghost predicate Pending(s: State, q: nat) {
    q in s.db.queue && !s.db.queue[q].sent
  }

  /** The weighment as it stands is on its way or delivered. */
  ghost predicate Covered(s: State, w: Weighment) {
    || (exists q :: Pending(s, q) && Business(s.db.queue[q].payload) == Business(w))
    || (exists p :: p in s.accepted && Business(p) == Business(w))
  }

  ghost predicate QueueOk(s: State) {
    forall q | q in s.db.queue :: var row := s.db.queue[q];
      q < s.db.nextId && row.payload.id == row.wid && Weighed(row.payload) && (row.sent ==> row.payload in s.accepted)
  }

  function PageOf(pc: Pc): seq<Entry> {
    if pc.Idle? then [] else pc.page
  }

  /** A copy of a row is right as long as the row exists: ids are never reused. */
  ghost predicate EntryOk(s: State, e: Entry) {
    e.q < s.db.nextId && Weighed(e.payload) && (e.q in s.db.queue ==> s.db.queue[e.q].payload == e.payload)
  }

  /** The thread's copies are right. */
  ghost predicate PageOk(s: State) {
    && (forall e | e in PageOf(s.pc) :: EntryOk(s, e))
    && (s.pc.Marking? ==>
          && s.pc.page != []
          && (s.pc.answer.Accepted() ==> s.pc.page[0].payload in s.accepted)
          && (s.pc.answer.Result().None? ==> s.link.lastFailureTransient == !IsPermanentRejection(s.pc.answer.cloud)))
  }

  ghost predicate TicketsOk(db: Db) {
    && (forall id | id in db.weighments ::
          db.weighments[id].id == id && Weighed(db.weighments[id]) && 1 <= db.weighments[id].ticketNo <= db.ticketNo)
    && (forall id, id' | id in db.weighments && id' in db.weighments &&
          db.weighments[id].ticketNo == db.weighments[id'].ticketNo :: id == id')
  }

  ghost predicate CoverageOk(s: State) {
    forall id | id in s.db.weighments && s.db.weighments[id].status != FirstDone :: Covered(s, s.db.weighments[id])
  }

  ghost predicate Inv(s: State) {
    && QueueOk(s) && PageOk(s) && TicketsOk(s.db) && CoverageOk(s)
    && forall p | p in s.accepted :: Weighed(p)
  }

  /** The only ways a row stops being pending. */
  ghost predicate MayLeave(s: State, a: Action, s': State, q: nat)
    requires Pending(s, q)
  {
    var row := s.db.queue[q];
    || (a.Mark? && s.pc.Marking? && s.pc.page != [] && s.pc.page[0].q == q && s.pc.answer.Accepted() &&
        row.payload in s'.accepted)
    || (a == Delete(row.wid) && row.wid !in s'.db.weighments)
    || (a.LabResult? && a.id == row.wid && a.id in s'.db.weighments &&
        Pending(s', s.db.nextId) && s'.db.queue[s.db.nextId].payload == s'.db.weighments[a.id])
  }

  /** A pending row stays as it was, but for its attempts, or leaves in one of those ways. */
  lemma PendingRowsStay(s: State, a: Action, q: nat)
    requires QueueOk(s) && PageOk(s) && Enabled(s, a) && Pending(s, q)
    ensures var s' := Apply(s, a);
            || (Pending(s', q) && s'.db.queue[q].payload == s.db.queue[q].payload && s'.db.queue[q].wid == s.db.queue[q].wid)
            || MayLeave(s, a, s', q)
  {
    if a.Mark? && s.pc.page[0].q == q {
      assert s.pc.page[0] in PageOf(s.pc);
    }
  }

  /** A weighment's business columns change only together with a fresh snapshot, or into FIRST_DONE. */
  lemma WeighmentChanges(s: State, a: Action, id: string)
    requires QueueOk(s) && PageOk(s) && Enabled(s, a) && id in Apply(s, a).db.weighments
    ensures var s' := Apply(s, a);
            || s'.db.weighments[id].status == FirstDone
            || (Pending(s', s.db.nextId) && s'.db.queue[s.db.nextId].payload == s'.db.weighments[id])
            || (id in s.db.weighments && Business(s'.db.weighments[id]) == Business(s.db.weighments[id]))
  {
  }

  /** Cover carries over when the rows that give it stay, or their payloads were accepted. */
  lemma CoverTransfers(s: State, s': State, w: Weighment, w': Weighment)
    requires Covered(s, w) && Business(w) == Business(w') && s.accepted <= s'.accepted
    requires forall q | Pending(s, q) && Business(s.db.queue[q].payload) == Business(w) ::
               (Pending(s', q) && s'.db.queue[q].payload == s.db.queue[q].payload) || s.db.queue[q].payload in s'.accepted
    ensures Covered(s', w')
  {
  }

  /** A row that covers a weighment which is still there, and did not get a fresh snapshot, stays or was accepted. */
  lemma CoverRowStays(s: State, a: Action, id: string, q: nat)
    requires QueueOk(s) && PageOk(s) && Enabled(s, a) && Pending(s, q) && s.db.queue[q].wid == id
    requires id in Apply(s, a).db.weighments
    requires var s' := Apply(s, a); !(Pending(s', s.db.nextId) && s'.db.queue[s.db.nextId].payload == s'.db.weighments[id])
    ensures var s' := Apply(s, a);
            (Pending(s', q) && s'.db.queue[q].payload == s.db.queue[q].payload) || s.db.queue[q].payload in s'.accepted
  {
    PendingRowsStay(s, a, q);
  }

  lemma CoverageKeptAt(s: State, a: Action, id: string)
    requires QueueOk(s) && PageOk(s) && TicketsOk(s.db) && CoverageOk(s) && Enabled(s, a)
    requires id in Apply(s, a).db.weighments && Apply(s, a).db.weighments[id].status != FirstDone
    ensures Covered(Apply(s, a), Apply(s, a).db.weighments[id])
  {
    var s' := Apply(s, a);
    WeighmentChanges(s, a, id);
    if !(Pending(s', s.db.nextId) && s'.db.queue[s.db.nextId].payload == s'.db.weighments[id]) {
      var w := s.db.weighments[id];
      forall q | Pending(s, q) && Business(s.db.queue[q].payload) == Business(w)
        ensures (Pending(s', q) && s'.db.queue[q].payload == s.db.queue[q].payload) || s.db.queue[q].payload in s'.accepted
      {
        assert s.db.queue[q].wid == Business(s.db.queue[q].payload).id == Business(w).id == id;
        CoverRowStays(s, a, id, q);
      }
      CoverTransfers(s, s', w, s'.db.weighments[id]);
    }
  }

  lemma RowKept(s: State, a: Action, q: nat)
    requires QueueOk(s) && PageOk(s) && TicketsOk(s.db) && Enabled(s, a) && q in Apply(s, a).db.queue
    ensures var s' := Apply(s, a);
            var row := s'.db.queue[q];
            q < s'.db.nextId && row.payload.id == row.wid && Weighed(row.payload) && (row.sent ==> row.payload in s'.accepted)
  {
    if a.Mark? { assert s.pc.page[0] in PageOf(s.pc); }
  }

  /** A weighment keeps its ticket for life, and a new one gets a number above all before it. */
  lemma TicketKept(s: State, a: Action, id: string)
    requires TicketsOk(s.db) && Enabled(s, a) && id in Apply(s, a).db.weighments
    ensures var s' := Apply(s, a);
            var w := s'.db.weighments[id];
            && w.id == id && s.db.ticketNo <= s'.db.ticketNo
            && (if id in s.db.weighments then w.ticketNo == s.db.weighments[id].ticketNo
                else w.ticketNo == s.db.ticketNo + 1 == s'.db.ticketNo && a.Create? && a.id == id)
  {
  }

  lemma WeighedKept(s: State, a: Action, id: string)
    requires TicketsOk(s.db) && Enabled(s, a) && id in Apply(s, a).db.weighments
    ensures Weighed(Apply(s, a).db.weighments[id])
  {
    match a
    case Second(i, weight, now) =>
      assert i == id && SecondError(s.db, id, weight).None? ==> Weighed(WithSecond(s.db.weighments[id], weight, now));
    case _ =>
  }

  lemma TicketsKept(s: State, a: Action)
    requires TicketsOk(s.db) && Enabled(s, a)
    ensures TicketsOk(Apply(s, a).db)
  {
    var db' := Apply(s, a).db;
    forall id | id in db'.weighments
      ensures db'.weighments[id].id == id && Weighed(db'.weighments[id]) && 1 <= db'.weighments[id].ticketNo <= db'.ticketNo
    {
      TicketKept(s, a, id);
      WeighedKept(s, a, id);
    }
    forall id, id' | id in db'.weighments && id' in db'.weighments && db'.weighments[id].ticketNo == db'.weighments[id'].ticketNo
      ensures id == id'
    {
      TicketKept(s, a, id);
      TicketKept(s, a, id');
    }
  }

  lemma PageKept(s: State, a: Action)
    requires QueueOk(s) && PageOk(s) && Enabled(s, a)
    ensures PageOk(Apply(s, a))
  {
    var s' := Apply(s, a);
    forall e | e in PageOf(s'.pc) ensures EntryOk(s', e) {
      if a.Fetch? {
        var i :| 0 <= i < |a.fetched| && a.fetched[i] == e;
      } else {
        assert e in PageOf(s.pc) && EntryOk(s, e);
        EntryKept(s, a, e);
      }
    }
  }

  lemma EntryKept(s: State, a: Action, e: Entry)
    requires QueueOk(s) && EntryOk(s, e) && Enabled(s, a)
    ensures EntryOk(Apply(s, a), e)
  {
  }

  /** Every step keeps the invariant. */
  lemma StepKeeps(s: State, a: Action)
    requires Inv(s) && Enabled(s, a)
    ensures Inv(Apply(s, a))
  {
    var s' := Apply(s, a);
    forall q | q in s'.db.queue { RowKept(s, a, q); }
    PageKept(s, a);
    TicketsKept(s, a);
    forall id | id in s'.db.weighments && s'.db.weighments[id].status != FirstDone { CoverageKeptAt(s, a, id); }
    forall p | p in s'.accepted ensures Weighed(p) {
      if p !in s.accepted { assert s.pc.page[0] in PageOf(s.pc); }
    }
  }

  ghost predicate Initial(s: State) {
    s.db == Db(map[], map[], 1, 0) && s.pc.Idle? && s.accepted == {} && s.log == []
  }

  ghost predicate Run(states: seq<State>, actions: seq<Action>) {
    && |states| == |actions| + 1 && Initial(states[0])
    && forall i | 0 <= i < |actions| :: TakesStep(states, actions, i)
  }

  ghost predicate TakesStep(states: seq<State>, actions: seq<Action>, i: nat)
    requires i < |actions| && |states| == |actions| + 1
  {
    Enabled(states[i], actions[i]) && states[i + 1] == Apply(states[i], actions[i])
  }

  /** The invariant holds in every state of every run. */
  lemma {:induction false} RunKeeps(states: seq<State>, actions: seq<Action>, i: nat)
    requires Run(states, actions) && i < |states|
    ensures Inv(states[i])
  {
    if i > 0 {
      RunKeeps(states, actions, i - 1);
      assert TakesStep(states, actions, i - 1);
      StepKeeps(states[i - 1], actions[i - 1]);
    }
  }

  lemma LastTicket(states: seq<State>, actions: seq<Action>, j: nat, id: string)
    requires Run(states, actions) && 0 < j < |states| && id in states[j].db.weighments
    ensures var s, w := states[j - 1], states[j].db.weighments[id];
            && s.db.ticketNo <= states[j].db.ticketNo && w.ticketNo <= states[j].db.ticketNo
            && if id in s.db.weighments then w.ticketNo == s.db.weighments[id].ticketNo else w.ticketNo > s.db.ticketNo
  {
    RunKeeps(states, actions, j - 1);
    RunKeeps(states, actions, j);
    assert TakesStep(states, actions, j - 1);
    TicketKept(states[j - 1], actions[j - 1], id);
  }

  /** Every weighment of state j has its number from state i, or a number above all issued by then. */
  lemma {:induction false} TicketsRise(states: seq<State>, actions: seq<Action>, i: nat, j: nat, id: string)
    requires Run(states, actions) && i <= j < |states| && id in states[j].db.weighments
    ensures var w := states[j].db.weighments[id];
            && states[i].db.ticketNo <= states[j].db.ticketNo && w.ticketNo <= states[j].db.ticketNo
            && (w.ticketNo > states[i].db.ticketNo ||
                (id in states[i].db.weighments && states[i].db.weighments[id].ticketNo == w.ticketNo))
    decreases j - i
  {
    if i == j {
      RunKeeps(states, actions, j);
    } else {
      LastTicket(states, actions, j, id);
      CounterRises(states, actions, i, j - 1);
      if id in states[j - 1].db.weighments {
        TicketsRise(states, actions, i, j - 1, id);
      }
    }
  }

  lemma {:induction false} CounterRises(states: seq<State>, actions: seq<Action>, i: nat, j: nat)
    requires Run(states, actions) && i <= j < |states|
    ensures states[i].db.ticketNo <= states[j].db.ticketNo
    decreases j - i
  {
    if i < j {
      CounterRises(states, actions, i, j - 1);
      assert TakesStep(states, actions, j - 1);
    }
  }

  /** A ticket number is one weighment's for ever: two weighments seen at any two moments, the first perhaps
      deleted since, that carry the same number are the same weighment. */
  lemma TicketsNeverReused(states: seq<State>, actions: seq<Action>, i: nat, j: nat, id: string, id': string)
    requires Run(states, actions) && i <= j < |states|
    requires id in states[i].db.weighments && id' in states[j].db.weighments
    requires states[i].db.weighments[id].ticketNo == states[j].db.weighments[id'].ticketNo
    ensures id == id'
  {
    RunKeeps(states, actions, i);
    TicketsRise(states, actions, i, j, id');
  }
}
