/** Which columns each database operation writes, column by column, and what the tickets then say of the operator's
    entries over a whole run. */
module WeighbridgeColumns {
  import opened Common
  import opened WeighbridgeDb
  import opened WeighbridgeSync
  import opened WeighbridgeSafety

  /** Every letter of the text, and nothing else, is changed to its capital. */
  lemma {:induction false} UpperAt(s: string, i: nat)
    requires i < |s|
    ensures |Upper(s)| == |s|
    ensures if 97 <= s[i] as int <= 122 then Upper(s)[i] as int == s[i] as int - 32 else Upper(s)[i] == s[i]
  {
    if i > 0 {
      UpperAt(s[1..], i - 1);
    } else if |s| > 1 {
      UpperAt(s[1..], 0);
    }
  }

  /** Tab to carriage return, the four separators, and the space. */
  lemma BlankIff(c: char)
    ensures IsBlank(c) <==> c as int in {9, 10, 11, 12, 13, 28, 29, 30, 31, 32}
  {
  }

  /** What is stripped off is blank, and what is left neither begins nor ends with a blank. */
  lemma {:induction false} StripCuts(s: string) returns (i: nat, j: nat)
    ensures i <= j <= |s| && Strip(s) == s[i..j]
    ensures forall k | 0 <= k < |s| && !(i <= k < j) :: IsBlank(s[k])
    ensures i < j ==> !IsBlank(s[i]) && !IsBlank(s[j - 1])
    decreases |s|
  {
    i, j := 0, |s|;
    if s != "" {
      if IsBlank(s[0]) {
        i, j := StripCuts(s[1..]);
        assert s[1..][i..j] == s[i + 1..j + 1];
        forall k | 0 <= k < |s| && !(i + 1 <= k < j + 1) ensures IsBlank(s[k]) {
          assert k > 0 ==> s[1..][k - 1] == s[k];
        }
        i, j := i + 1, j + 1;
      } else if IsBlank(s[|s| - 1]) {
        var n := |s| - 1;
        i, j := StripCuts(s[..n]);
        assert s[..n][i..j] == s[i..j];
        forall k | 0 <= k < |s| && !(i <= k < j) ensures IsBlank(s[k]) {
          assert k < n ==> s[..n][k] == s[k];
        }
      }
    }
  }

  // ---- one operation ----

  /** All tickets but this one are as they were. */
  ghost predicate OthersStay(db: Db, db': Db, id: string) {
    && (forall other | other != id :: other in db'.weighments <==> other in db.weighments)
    && (forall other | other != id && other in db.weighments :: db'.weighments[other] == db.weighments[other])
  }

  /** The queue gained one row at the end: a snapshot of the ticket as it now stands, not yet tried. */
  ghost predicate Snapshot(db: Db, db': Db, id: string, now: int) {
    && db.nextId in db'.queue && db'.nextId == db.nextId + 1 && id in db'.weighments
    && var row := db'.queue[db.nextId];
       && row.wid == id && row.payload == db'.weighments[id] && !row.sent && row.attempts == 0
       && row.lastAttempt == None && row.createdAt == now
  }

  ghost predicate RowsStay(db: Db, db': Db) {
    forall q | q != db.nextId :: (q in db'.queue <==> q in db.queue) && (q in db.queue ==> db'.queue[q] == db.queue[q])
  }

  /** A new ticket carries what was given at the gate, and no weight. */
  lemma GateEntryStores(db: Db, id: string, direction: string, vehicleNo: string, details: seq<string>, now: int)
    ensures var db' := CreateGateEntry(db, id, direction, vehicleNo, details, now);
            && OthersStay(db, db', id) && Snapshot(db, db', id, now) && RowsStay(db, db')
            && db'.ticketNo == db.ticketNo + 1
            && var w := db'.weighments[id];
               && w.id == id && w.ticketNo == db.ticketNo + 1
               && w.direction == Upper(direction) && w.vehicleNo == Strip(Upper(vehicleNo)) && w.details == details
               && w.status == GateEntry && w.first == w.second == w.gross == w.tare == w.net == None && w.source == "SERIAL"
               && w.lab.status == "PENDING" && w.lab.testedAt == None && w.gateAt == now
               && w.firstAt == w.secondAt == None && !w.synced && w.syncedAt == None && w.cloudId == None
  {
  }

  /** What a gate entry, its identity and its laboratory result are; no weight or time of weighing. */
  ghost predicate SameGate(w: Weighment, w': Weighment) {
    && w'.id == w.id && w'.ticketNo == w.ticketNo && w'.direction == w.direction && w'.vehicleNo == w.vehicleNo
    && w'.details == w.details && w'.gateAt == w.gateAt
  }

  ghost predicate SameSync(w: Weighment, w': Weighment) {
    w'.synced == w.synced && w'.syncedAt == w.syncedAt && w'.cloudId == w.cloudId
  }

  /** The first weight goes to the first column, and to gross for an inbound vehicle, else to tare. */
  lemma FirstStores(db: Db, id: string, weight: real, source: string, now: int)
    requires id in db.weighments
    ensures var db' := CaptureFirstWeight(db, id, weight, source, now);
            && OthersStay(db, db', id) && db'.queue == db.queue && db'.nextId == db.nextId && db'.ticketNo == db.ticketNo
            && id in db'.weighments
            && var w, w' := db.weighments[id], db'.weighments[id];
               && SameGate(w, w') && SameSync(w, w') && w'.lab == w.lab
               && w'.first == Some(weight) && w'.source == source && w'.status == FirstDone && w'.firstAt == Some(now)
               && w'.second == w.second && w'.net == w.net && w'.secondAt == w.secondAt
               && (w.direction == "IN" ==> w'.gross == Some(weight) && w'.tare == w.tare)
               && (w.direction != "IN" ==> w'.tare == Some(weight) && w'.gross == w.gross)
  {
  }

  /** Why a second weight is refused: no ticket, no first weight, or loaded less than empty. */
  lemma SecondErrorIff(db: Db, id: string, weight: real)
    ensures SecondError(db, id, weight) == Some(NotFound) <==> id !in db.weighments
    ensures SecondError(db, id, weight) == Some(NoFirstWeight) <==> id in db.weighments && db.weighments[id].first == None
    ensures SecondError(db, id, weight) == Some(NegativeNet) <==>
            && id in db.weighments && db.weighments[id].first.Some?
            && var w := db.weighments[id];
               (w.direction == "IN" && weight > w.first.value) || (w.direction != "IN" && weight < w.first.value)
    ensures SecondError(db, id, weight) != Some(BadLabStatus)
  {
  }

  /** The second weight goes to the second column, completes gross, tare and net, and is queued. */
  lemma SecondStores(db: Db, id: string, weight: real, now: int)
    requires SecondError(db, id, weight).None?
    ensures var db' := CaptureSecondWeight(db, id, weight, now);
            && OthersStay(db, db', id) && Snapshot(db, db', id, now) && RowsStay(db, db') && db'.ticketNo == db.ticketNo
            && var w, w' := db.weighments[id], db'.weighments[id];
               && SameGate(w, w') && SameSync(w, w') && w'.lab == w.lab
               && w'.first == w.first && w'.firstAt == w.firstAt && w'.source == w.source
               && w'.second == Some(weight) && w'.status == Complete && w'.secondAt == Some(now)
               && (w.direction == "IN" ==> w'.gross == w.first && w'.tare == Some(weight))
               && (w.direction != "IN" ==> w'.gross == Some(weight) && w'.tare == w.first)
               && w'.net == Some(w'.gross.value - w'.tare.value) && w'.net.value >= 0.0
  {
  }

  lemma LabErrorIff(db: Db, id: string, status: string)
    ensures LabError(db, id, status) == Some(NotFound) <==> id !in db.weighments
    ensures LabError(db, id, status) == Some(BadLabStatus) <==> id in db.weighments && status !in {"PASS", "FAIL"}
    ensures LabError(db, id, status) != Some(NoFirstWeight) && LabError(db, id, status) != Some(NegativeNet)
  {
  }

  /** The laboratory's own result and the time are stored; the ticket's other queue rows give way to a snapshot. */
  lemma LabStores(db: Db, id: string, lab: Lab, now: int)
    requires LabError(db, id, lab.status).None?
    ensures var db' := UpdateLabResult(db, id, lab, now);
            && OthersStay(db, db', id) && Snapshot(db, db', id, now) && db'.ticketNo == db.ticketNo
            && (forall q | q != db.nextId :: q in db'.queue <==> q in db.queue && db.queue[q].wid != id)
            && (forall q | q in db'.queue && q != db.nextId :: db'.queue[q] == db.queue[q])
            && var w, w' := db.weighments[id], db'.weighments[id];
               && SameGate(w, w') && SameSync(w, w') && w'.status == w.status && w'.source == w.source
               && w'.first == w.first && w'.second == w.second && w'.gross == w.gross && w'.tare == w.tare && w'.net == w.net
               && w'.firstAt == w.firstAt && w'.secondAt == w.secondAt
               && w'.lab.status == lab.status && w'.lab.readings == lab.readings && w'.lab.remarks == lab.remarks
               && w'.lab.testedBy == lab.testedBy && w'.lab.testedAt == Some(now)
  {
  }

  /** A deletion takes the ticket and its queue rows and nothing else; the counters stay. */
  lemma DeleteRemoves(db: Db, id: string)
    ensures var db' := DeleteWeighment(db, id);
            && OthersStay(db, db', id) && id !in db'.weighments && db'.ticketNo == db.ticketNo && db'.nextId == db.nextId
            && (forall q :: q in db'.queue <==> q in db.queue && db.queue[q].wid != id)
            && (forall q | q in db'.queue :: db'.queue[q] == db.queue[q])
  {
  }

  /** All queue rows but q are as they were. */
  ghost predicate OtherRowsStay(db: Db, db': Db, q: nat) {
    && db'.queue.Keys == db.queue.Keys && db'.nextId == db.nextId && db'.ticketNo == db.ticketNo
    && (forall r | r in db.queue && r != q :: db'.queue[r] == db.queue[r])
  }

  /** A delivered row is marked sent, and its ticket synced, with the server's id. */
  lemma MarkSyncedStores(db: Db, q: nat, cloudId: string, now: int)
    requires q in db.queue
    ensures var db' := MarkSynced(db, q, cloudId, now);
            && OtherRowsStay(db, db', q) && OthersStay(db, db', db.queue[q].wid)
            && db'.weighments.Keys == db.weighments.Keys
            && var row, row' := db.queue[q], db'.queue[q];
               && row'.wid == row.wid && row'.payload == row.payload && row'.attempts == row.attempts
               && row'.createdAt == row.createdAt && row'.sent && row'.lastAttempt == Some(now)
               && (row.wid in db.weighments ==>
                     var w, w' := db.weighments[row.wid], db'.weighments[row.wid];
                     Business(w') == Business(w) && w'.synced && w'.syncedAt == Some(now) && w'.cloudId == Some(cloudId))
  {
  }

  lemma MarkFailedStores(db: Db, q: nat, countAttempt: bool, now: int)
    requires q in db.queue
    ensures var db' := MarkSyncFailed(db, q, countAttempt, now);
            && OtherRowsStay(db, db', q) && db'.weighments == db.weighments
            && var row, row' := db.queue[q], db'.queue[q];
               && row'.wid == row.wid && row'.payload == row.payload && row'.sent == row.sent
               && row'.createdAt == row.createdAt && row'.lastAttempt == Some(now)
               && (countAttempt ==> row'.attempts == row.attempts + 1) && (!countAttempt ==> row'.attempts == row.attempts)
  {
  }

  /** Marking a row that is gone does nothing. */
  lemma GoneRowsAreNotMarked(db: Db, q: nat, cloudId: string, countAttempt: bool, now: int)
    requires q !in db.queue
    ensures MarkSynced(db, q, cloudId, now) == db && MarkSyncFailed(db, q, countAttempt, now) == db
  {
  }

  /** Requeueing sets the attempts of the pending rows with ten or more to 0. */
  lemma RequeueStores(db: Db, q: nat)
    ensures var db' := RequeueStuck(db);
            && db'.weighments == db.weighments && db'.nextId == db.nextId && db'.ticketNo == db.ticketNo
            && (q in db'.queue <==> q in db.queue)
            && (q in db.queue ==>
                  var row, row' := db.queue[q], db'.queue[q];
                  && row'.wid == row.wid && row'.payload == row.payload && row'.sent == row.sent
                  && row'.lastAttempt == row.lastAttempt && row'.createdAt == row.createdAt
                  && row'.attempts == if !row.sent && row.attempts >= 10 then 0 else row.attempts)
  {
  }

  /** Clean-up takes the sent rows created before the cutoff and nothing else. */
  lemma CleanupDrops(db: Db, cutoff: int, q: nat)
    ensures var db' := CleanupOldSyncQueue(db, cutoff);
            && db'.weighments == db.weighments && db'.nextId == db.nextId && db'.ticketNo == db.ticketNo
            && (q in db'.queue ==> q in db.queue && db'.queue[q] == db.queue[q])
            && (q in db.queue && q !in db'.queue <==> q in db.queue && db.queue[q].sent && db.queue[q].createdAt < cutoff)
  {
  }

  // ---- the steps ----

  /** A web operation leaves the thread, its memory and what the servers accepted alone. */
  ghost predicate ThreadStays(s: State, s': State) {
    s'.pc == s.pc && s'.link == s.link && s'.accepted == s.accepted
  }

  lemma LabStep(s: State, id: string, lab: Lab, now: int)
    ensures var s' := Apply(s, LabResult(id, lab, now));
            && ThreadStays(s, s')
            && if id in s.db.weighments && lab.status in {"PASS", "FAIL"} then
                 && OthersStay(s.db, s'.db, id) && Snapshot(s.db, s'.db, id, now)
                 && s'.db.weighments[id].lab.status == lab.status && s'.db.weighments[id].lab.testedAt == Some(now)
               else s' == s
  {
  }

  lemma CleanupStep(s: State, cutoff: int, q: nat)
    ensures var s' := Apply(s, Cleanup(cutoff));
            && ThreadStays(s, s') && s'.db.weighments == s.db.weighments
            && (q in s'.db.queue <==> q in s.db.queue && !(s.db.queue[q].sent && s.db.queue[q].createdAt < cutoff))
            && (q in s'.db.queue ==> s'.db.queue[q] == s.db.queue[q])
  {
  }

  /** A fetched page is POSTed from its first entry on, with no failure counted yet. */
  lemma FetchStep(s: State, page: seq<Entry>)
    requires Enabled(s, Fetch(page))
    ensures var s' := Apply(s, Fetch(page));
            && s'.db == s.db && s'.link == s.link && s'.accepted == s.accepted
            && (if page == [] then s'.pc == Idle else s'.pc.Posting? && s'.pc.page == page && s'.pc.failures == 0)
  {
  }

  /** Only a POST makes a payload accepted: its own, if the answer says so or it reached a server. The database and
      the thread's place on its page stay until the mark. */
  lemma PostStep(s: State, a: Action, payload: Weighment)
    requires Enabled(s, a)
    ensures var s' := Apply(s, a);
            && (payload in s'.accepted <==>
                  payload in s.accepted || (a.Post? && (a.answer.Accepted() || a.reached) && payload == s.pc.page[0].payload))
            && (a.Post? ==>
                  s'.db == s.db && s'.pc == Marking(s.pc.page, s.pc.failures, a.answer) && s'.link == AfterPost(s.link, a.answer))
            && (a.OtherRequest? ==> s'.db == s.db && s'.pc == s.pc && s'.link == AfterPost(s.link, a.answered))
  {
  }

  /** A restart forgets the page and the memory, and revives the pending rows that had run out of attempts. */
  lemma RestartStep(s: State, q: nat)
    ensures var s' := Apply(s, Restart);
            && s'.pc == Idle && s'.accepted == s.accepted && s'.db == Apply(s, Requeue).db
            && s'.link.backoff == 10 && !s'.link.factoryReachable && !s'.link.cloudReachable
            && s'.link.lastTarget == "" && s'.link.lastFailureTransient
            && s'.db.weighments == s.db.weighments && (q in s'.db.queue <==> q in s.db.queue)
            && (q in s.db.queue && !s.db.queue[q].sent ==>
                  s'.db.queue[q].attempts == if s.db.queue[q].attempts >= 10 then 0 else s.db.queue[q].attempts)
  {
    RequeueStores(s.db, q);
  }

  // ---- a ticket over a run ----

  /** What the operator entered for a ticket since its gate entry. */
  datatype Slip = Slip(direction: string, vehicleNo: string, details: seq<string>, first: Option<real>, second: Option<real>,
                       complete: bool)

  /** Loaded minus empty: an inbound vehicle comes loaded. */
  function Load(direction: string, first: real, second: real): real {
    if Upper(direction) == "IN" then first - second else second - first
  }

  /** The slip of ticket id after these actions, if there is a ticket. A second weight that would make the load negative
      is turned away. */
  function SlipAfter(actions: seq<Action>, id: string): Option<Slip> {
    if actions == [] then None else
    var a, before := actions[|actions| - 1], SlipAfter(actions[..|actions| - 1], id);
    match a
    case Create(i, direction, vehicleNo, details, _) =>
      if i == id then Some(Slip(direction, vehicleNo, details, None, None, false)) else before
    case First(i, weight, _, _) =>
      if i == id && before.Some? then Some(before.value.(first := Some(weight), complete := false)) else before
    case Second(i, weight, _) =>
      if && i == id && before.Some? && before.value.first.Some?
         && Load(before.value.direction, before.value.first.value, weight) >= 0.0
      then Some(before.value.(second := Some(weight), complete := true)) else before
    case Delete(i) => if i == id then None else before
    case _ => before
  }

  /** The ticket says what the slip says. */
  ghost predicate Tells(w: Weighment, slip: Slip) {
    && w.direction == Upper(slip.direction) && w.vehicleNo == Strip(Upper(slip.vehicleNo)) && w.details == slip.details
    && w.first == slip.first && w.second == slip.second
    && (w.status == Complete <==> slip.complete)
    && (w.status == GateEntry <==> slip.first.None?)
    && (slip.first.None? ==> slip.second.None? && w.gross.None? && w.tare.None? && w.net.None?)
    && (slip.first.Some? && !slip.complete ==> (if w.direction == "IN" then w.gross else w.tare) == slip.first)
    && (slip.complete ==>
          && slip.first.Some? && slip.second.Some? && w.net == Some(Load(slip.direction, slip.first.value, slip.second.value))
          && w.net.value >= 0.0
          && (if w.direction == "IN" then w.gross == slip.first && w.tare == slip.second
              else w.tare == slip.first && w.gross == slip.second))
  }

  ghost predicate TicketTells(db: Db, slip: Option<Slip>, id: string) {
    && (id in db.weighments <==> slip.Some?)
    && (slip.Some? ==> Tells(db.weighments[id], slip.value))
  }

  lemma StepTells(s: State, a: Action, before: seq<Action>, id: string)
    requires Enabled(s, a) && TicketTells(s.db, SlipAfter(before, id), id)
    ensures TicketTells(Apply(s, a).db, SlipAfter(before + [a], id), id)
  {
    assert (before + [a])[..|before|] == before;
  }

  /** In every state of every run, whatever web operations, syncing and restarts come between: there is a ticket exactly
      if it was entered at the gate and not deleted since, and it carries the direction, vehicle and details given
      there, the weights given last, and, once complete, the load as its net weight. */
  lemma {:induction false} RunTells(states: seq<State>, actions: seq<Action>, n: nat, id: string)
    requires Run(states, actions) && n < |states|
    ensures TicketTells(states[n].db, SlipAfter(actions[..n], id), id)
  {
    if n == 0 {
      assert actions[..0] == [];
    } else {
      RunTells(states, actions, n - 1, id);
      assert TakesStep(states, actions, n - 1) && actions[..n] == actions[..n - 1] + [actions[n - 1]];
      StepTells(states[n - 1], actions[n - 1], actions[..n - 1], id);
    }
  }
}
