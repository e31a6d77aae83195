/** The weighbridge's local database: tickets, weighments and the sync queue. Each operation is one
    committed transaction; the functions say what it does to the tables, the class does it. */
module WeighbridgeDb {
  import opened Common

  const SYNC_MAX_ATTEMPTS := 10

  datatype Status = GateEntry | FirstDone | Complete

  datatype Lab = Lab(status: string, readings: seq<Option<real>>, remarks: string, testedAt: Option<int>, testedBy: string)

  /** One row of weighments; `details` stands for the remaining gate-entry columns. */
  datatype Weighment = Weighment(
    id: string, ticketNo: nat, direction: string, vehicleNo: string, details: seq<string>,
    first: Option<real>, second: Option<real>, gross: Option<real>, tare: Option<real>, net: Option<real>, source: string,
    lab: Lab, status: Status, gateAt: int, firstAt: Option<int>, secondAt: Option<int>,
    synced: bool, syncedAt: Option<int>, cloudId: Option<string>)

  /** One row of sync_queue: a snapshot of a weighment on its way to the server. */
  datatype QueueRow = QueueRow(wid: string, payload: Weighment, sent: bool, attempts: nat, lastAttempt: Option<int>, createdAt: int)

  /** nextId is AUTOINCREMENT's next key: keys of deleted rows are never given out again. */
  datatype Db = Db(weighments: map<string, Weighment>, queue: map<nat, QueueRow>, nextId: nat, ticketNo: nat)

  datatype Error = NotFound | NoFirstWeight | NegativeNet | BadLabStatus

  /** All columns but those the sync itself writes. */
  function Business(w: Weighment): Weighment {
    w.(synced := false, syncedAt := None, cloudId := None)
  }

  /** upper(), for ASCII letters. */
  function Upper(s: string): string {
    if s == "" then "" else [if 'a' <= s[0] <= 'z' then s[0] - 'a' + 'A' else s[0]] + Upper(s[1..])
  }

  /** What Python calls white space, within ASCII. */
  predicate IsBlank(c: char) {
    c as int == 32 || 9 <= c as int <= 13 || 28 <= c as int <= 31
  }

  /** strip(): without blanks at either end. */
  function Strip(s: string): string {
    if s == "" then ""
    else if IsBlank(s[0]) then Strip(s[1..])
    else if IsBlank(s[|s| - 1]) then Strip(s[..|s| - 1])
    else s
  }

  function NewWeighment(id: string, ticketNo: nat, direction: string, vehicleNo: string, details: seq<string>, now: int): Weighment {
    Weighment(id, ticketNo, Upper(direction), Strip(Upper(vehicleNo)), details, None, None, None, None, None, "SERIAL",
              Lab("PENDING", [], "", None, ""), GateEntry, now, None, None, false, None, None)
  }

  /** Stores w as weighment id and appends a snapshot of it to the queue. */
  function Enqueue(db: Db, id: string, w: Weighment, now: int): Db {
    db.(weighments := db.weighments[id := w],
        queue := db.queue[db.nextId := QueueRow(id, w, false, 0, None, now)],
        nextId := db.nextId + 1)
  }

  function CreateGateEntry(db: Db, id: string, direction: string, vehicleNo: string, details: seq<string>, now: int): Db {
    Enqueue(db.(ticketNo := db.ticketNo + 1), id, NewWeighment(id, db.ticketNo + 1, direction, vehicleNo, details, now), now)
  }

  function WithFirst(w: Weighment, weight: real, source: string, now: int): Weighment {
    var base := w.(first := Some(weight), source := source, status := FirstDone, firstAt := Some(now));
    if w.direction == "IN" then base.(gross := Some(weight)) else base.(tare := Some(weight))
  }

  /** Why a second weight is refused, if it is. */
  function SecondError(db: Db, id: string, weight: real): Option<Error> {
    if id !in db.weighments then Some(NotFound)
    else
      var w := db.weighments[id];
      if w.first.None? then Some(NoFirstWeight)
      else if (if w.direction == "IN" then w.first.value - weight else weight - w.first.value) < 0.0 then Some(NegativeNet)
      else None
  }

  function WithSecond(w: Weighment, weight: real, now: int): Weighment
    requires w.first.Some?
  {
    var gross := if w.direction == "IN" then w.first.value else weight;
    var tare := if w.direction == "IN" then weight else w.first.value;
    w.(second := Some(weight), gross := Some(gross), tare := Some(tare), net := Some(gross - tare),
       status := Complete, secondAt := Some(now))
  }

  function CaptureFirstWeight(db: Db, id: string, weight: real, source: string, now: int): Db {
    if id in db.weighments then
      db.(weighments := db.weighments[id := WithFirst(db.weighments[id], weight, source, now)])
    else db
  }

  function CaptureSecondWeight(db: Db, id: string, weight: real, now: int): Db {
    if SecondError(db, id, weight).None? then Enqueue(db, id, WithSecond(db.weighments[id], weight, now), now) else db
  }

  function LabError(db: Db, id: string, status: string): Option<Error> {
    if id !in db.weighments then Some(NotFound) else if status != "PASS" && status != "FAIL" then Some(BadLabStatus) else None
  }

  function Without(queue: map<nat, QueueRow>, wid: string): map<nat, QueueRow> {
    map q | q in queue && queue[q].wid != wid :: queue[q]
  }

  /** A lab result replaces every queued snapshot of the weighment by one fresh snapshot. */
  function UpdateLabResult(db: Db, id: string, lab: Lab, now: int): Db {
    if LabError(db, id, lab.status).None? then
      Enqueue(db.(queue := Without(db.queue, id)), id, db.weighments[id].(lab := lab.(testedAt := Some(now))), now)
    else db
  }

  function DeleteWeighment(db: Db, id: string): Db {
    db.(weighments := db.weighments - {id}, queue := Without(db.queue, id))
  }

  predicate Eligible(row: QueueRow) {
    !row.sent && row.attempts < SYNC_MAX_ATTEMPTS
  }

  function MarkSynced(db: Db, q: nat, cloudId: string, now: int): Db {
    if q !in db.queue then db else
    var row := db.queue[q];
    db.(queue := db.queue[q := row.(sent := true, lastAttempt := Some(now))],
        weighments := if row.wid in db.weighments then
                        db.weighments[row.wid := db.weighments[row.wid].(synced := true, syncedAt := Some(now), cloudId := Some(cloudId))]
                      else db.weighments)
  }

  function MarkSyncFailed(db: Db, q: nat, countAttempt: bool, now: int): Db {
    if q !in db.queue then db else
    var row := db.queue[q];
    db.(queue := db.queue[q := row.(attempts := row.attempts + (if countAttempt then 1 else 0), lastAttempt := Some(now))])
  }

  function Requeued(row: QueueRow): QueueRow {
    if !row.sent && row.attempts >= SYNC_MAX_ATTEMPTS then row.(attempts := 0) else row
  }

  function RequeueStuck(db: Db): Db {
    db.(queue := map q | q in db.queue :: Requeued(db.queue[q]))
  }

  /** Drops sent rows created before the cutoff. */
  function CleanupOldSyncQueue(db: Db, cutoff: int): Db {
    db.(queue := map q | q in db.queue && !(db.queue[q].sent && db.queue[q].createdAt < cutoff) :: db.queue[q])
  }

  /** What the sync thread holds of a queue row it fetched. */
  datatype Entry = Entry(q: nat, payload: Weighment)

  /** A page of at most 50 eligible rows, oldest first: nothing older is left out, and nothing is left out of a short page. */
  ghost predicate IsPage(db: Db, page: seq<Entry>) {
    && |page| <= 50
    && (forall i | 0 <= i < |page| ::
          page[i].q in db.queue && Eligible(db.queue[page[i].q]) && page[i].payload == db.queue[page[i].q].payload)
    && (forall i, j | 0 <= i < j < |page| ::
          page[i].q != page[j].q && db.queue[page[i].q].createdAt <= db.queue[page[j].q].createdAt)
    && (forall q | q in db.queue && Eligible(db.queue[q]) && (forall e | e in page :: e.q != q) ::
          |page| == 50 && forall e | e in page :: db.queue[e.q].createdAt <= db.queue[q].createdAt)
  }

  /** Eligible rows without repetition, oldest first. */
  ghost predicate ByAge(queue: map<nat, QueueRow>, due: seq<nat>) {
    && (forall i | 0 <= i < |due| :: due[i] in queue && Eligible(queue[due[i]]))
    && (forall i, j | 0 <= i < j < |due| :: due[i] != due[j] && queue[due[i]].createdAt <= queue[due[j]].createdAt)
  }

  method InsertByAge(queue: map<nat, QueueRow>, due: seq<nat>, q: nat) returns (due': seq<nat>)
    requires ByAge(queue, due) && q in queue && Eligible(queue[q]) && q !in due
    ensures ByAge(queue, due') && forall k :: k in due' <==> k in due || k == q
  {
    var p := |due|;
    while p > 0 && queue[due[p - 1]].createdAt > queue[q].createdAt
      invariant 0 <= p <= |due|
      invariant forall j | p <= j < |due| :: queue[q].createdAt < queue[due[j]].createdAt
    {
      p := p - 1;
    }
    due' := due[..p] + [q] + due[p..];
    InsertedMembers(due, q, p);
    InsertedByAge(queue, due, q, p);
  }

  lemma InsertedMembers(due: seq<nat>, q: nat, p: nat)
    requires p <= |due|
    ensures forall k :: k in due[..p] + [q] + due[p..] <==> k in due || k == q
  {
    assert due == due[..p] + due[p..];
  }

  lemma InsertedByAge(queue: map<nat, QueueRow>, due: seq<nat>, q: nat, p: nat)
    requires ByAge(queue, due) && q in queue && Eligible(queue[q]) && q !in due && p <= |due|
    requires p > 0 ==> queue[due[p - 1]].createdAt <= queue[q].createdAt
    requires forall j | p <= j < |due| :: queue[q].createdAt < queue[due[j]].createdAt
    ensures ByAge(queue, due[..p] + [q] + due[p..])
  {
    var due' := due[..p] + [q] + due[p..];
    forall i | 0 <= i < |due'| ensures due'[i] == if i < p then due[i] else if i == p then q else due[i - 1] {
    }
  }

  function FirstFifty(queue: map<nat, QueueRow>, due: seq<nat>): seq<Entry>
    requires forall i | 0 <= i < |due| :: due[i] in queue
  {
    seq(if |due| > 50 then 50 else |due|, i requires 0 <= i < |due| => Entry(due[i], queue[due[i]].payload))
  }

  lemma FirstFiftyIsPage(db: Db, due: seq<nat>)
    requires ByAge(db.queue, due) && forall q :: q in due <==> q in db.queue && Eligible(db.queue[q])
    ensures IsPage(db, FirstFifty(db.queue, due))
  {
    var page := FirstFifty(db.queue, due);
    forall q | q in db.queue && Eligible(db.queue[q]) && (forall e | e in page :: e.q != q)
      ensures |page| == 50 && forall e | e in page :: db.queue[e.q].createdAt <= db.queue[q].createdAt
    {
      LeftOut(db.queue, due, q);
    }
  }

  /** An eligible row that the page leaves out comes after all of a full page. */
  lemma LeftOut(queue: map<nat, QueueRow>, due: seq<nat>, q: nat)
    requires ByAge(queue, due) && (forall r | r in due :: r in queue) && q in due
    requires forall e | e in FirstFifty(queue, due) :: e.q != q
    ensures |FirstFifty(queue, due)| == 50
    ensures forall e | e in FirstFifty(queue, due) :: e.q in queue && queue[e.q].createdAt <= queue[q].createdAt
  {
    var page := FirstFifty(queue, due);
    forall i | 0 <= i < |page| ensures due[i] != q {
      assert page[i] in page;
    }
    var k :| 0 <= k < |due| && due[k] == q;
  }

  class LocalDb {
    var weighments: map<string, Weighment>
    var queue: map<nat, QueueRow>
    var nextId: nat
    var ticketNo: nat

    ghost function Tables(): Db
      reads this
    {
      Db(weighments, queue, nextId, ticketNo)
    }

    constructor ()
      ensures Tables() == Db(map[], map[], 1, 0)
    {
      weighments, queue, nextId, ticketNo := map[], map[], 1, 0;
    }

    method NextTicketNo() returns (n: nat)
      modifies this`ticketNo
      ensures ticketNo == old(ticketNo) + 1 && n == ticketNo
    {
      ticketNo := ticketNo + 1;
      n := ticketNo;
    }

    method InsertQueueRow(wid: string, payload: Weighment, now: int)
      modifies this`queue, this`nextId
      ensures queue == old(queue)[old(nextId) := QueueRow(wid, payload, false, 0, None, now)] && nextId == old(nextId) + 1
    {
      queue := queue[nextId := QueueRow(wid, payload, false, 0, None, now)];
      nextId := nextId + 1;
    }

    /** id is a fresh uuid. */
    method Create(id: string, direction: string, vehicleNo: string, details: seq<string>, now: int) returns (w: Weighment)
      requires id !in weighments
      modifies this
      ensures Tables() == CreateGateEntry(old(Tables()), id, direction, vehicleNo, details, now) && w == weighments[id]
    {
      var ticket := NextTicketNo();
      weighments := weighments[id := NewWeighment(id, ticket, direction, vehicleNo, details, now)];
      w := weighments[id];
      InsertQueueRow(id, w, now);
    }

    method CaptureFirst(id: string, weight: real, source: string, now: int) returns (error: Option<Error>)
      modifies this
      ensures Tables() == CaptureFirstWeight(old(Tables()), id, weight, source, now)
      ensures error == if id in old(weighments) then None else Some(NotFound)
    {
      if id !in weighments { return Some(NotFound); }
      var row := weighments[id];
      if row.direction == "IN" {
        weighments := weighments[id := row.(first := Some(weight), gross := Some(weight), source := source,
                                            status := FirstDone, firstAt := Some(now))];
      } else {
        weighments := weighments[id := row.(first := Some(weight), tare := Some(weight), source := source,
                                            status := FirstDone, firstAt := Some(now))];
      }
      return None;
    }

    method CaptureSecond(id: string, weight: real, now: int) returns (error: Option<Error>)
      modifies this
      ensures Tables() == CaptureSecondWeight(old(Tables()), id, weight, now)
      ensures error == SecondError(old(Tables()), id, weight)
    {
      if id !in weighments { return Some(NotFound); }
      var row := weighments[id];
      if row.first.None? { return Some(NoFirstWeight); }
      var gross, tare;
      if row.direction == "IN" {
        gross, tare := row.first.value, weight;
      } else {
        gross, tare := weight, row.first.value;
      }
      var net := gross - tare;
      if net < 0.0 { return Some(NegativeNet); }
      weighments := weighments[id := row.(second := Some(weight), gross := Some(gross), tare := Some(tare), net := Some(net),
                                          status := Complete, secondAt := Some(now))];
      InsertQueueRow(id, weighments[id], now);
      return None;
    }

    method DeleteQueueRowsOf(wid: string)
      modifies this`queue
      ensures queue == Without(old(queue), wid)
    {
      queue := map q | q in queue && queue[q].wid != wid :: queue[q];
    }

    method UpdateLab(id: string, lab: Lab, now: int) returns (error: Option<Error>)
      modifies this
      ensures Tables() == UpdateLabResult(old(Tables()), id, lab, now)
      ensures error == LabError(old(Tables()), id, lab.status)
    {
      if id !in weighments { return Some(NotFound); }
      if lab.status != "PASS" && lab.status != "FAIL" { return Some(BadLabStatus); }
      weighments := weighments[id := weighments[id].(lab := lab.(testedAt := Some(now)))];
      DeleteQueueRowsOf(id);
      InsertQueueRow(id, weighments[id], now);
      return None;
    }

    method Delete(id: string)
      modifies this
      ensures Tables() == DeleteWeighment(old(Tables()), id)
    {
      weighments := weighments - {id};
      DeleteQueueRowsOf(id);
    }

    method MarkSent(q: nat, cloudId: string, now: int)
      modifies this
      ensures Tables() == MarkSynced(old(Tables()), q, cloudId, now)
    {
      if q in queue {
        queue := queue[q := queue[q].(sent := true, lastAttempt := Some(now))];
        var wid := queue[q].wid;
        if wid in weighments {
          weighments := weighments[wid := weighments[wid].(synced := true, syncedAt := Some(now), cloudId := Some(cloudId))];
        }
      }
    }

    method MarkFailed(q: nat, countAttempt: bool, now: int)
      modifies this`queue
      ensures Tables() == MarkSyncFailed(old(Tables()), q, countAttempt, now)
    {
      if q in queue {
        if countAttempt {
          queue := queue[q := queue[q].(attempts := queue[q].attempts + 1, lastAttempt := Some(now))];
        } else {
          queue := queue[q := queue[q].(lastAttempt := Some(now))];
        }
      }
    }

    method Requeue()
      modifies this`queue
      ensures Tables() == RequeueStuck(old(Tables()))
    {
      queue := map q | q in queue ::
        if !queue[q].sent && queue[q].attempts >= SYNC_MAX_ATTEMPTS then queue[q].(attempts := 0) else queue[q];
    }

    method Cleanup(cutoff: int)
      modifies this`queue
      ensures Tables() == CleanupOldSyncQueue(old(Tables()), cutoff)
    {
      queue := map q | q in queue && !(queue[q].sent && queue[q].createdAt < cutoff) :: queue[q];
    }

    /** The sync thread's fetch. */
    method GetPendingSync() returns (page: seq<Entry>)
      requires forall q | q in queue :: q < nextId
      ensures IsPage(Tables(), page)
    {
      var due: seq<nat> := [];
      for q := 0 to nextId
        invariant ByAge(queue, due)
        invariant forall k :: k in due <==> k in queue && k < q && Eligible(queue[k])
      {
        if q in queue && Eligible(queue[q]) {
          due := InsertByAge(queue, due, q);
        }
      }
      page := FirstFifty(queue, due);
      FirstFiftyIsPage(Tables(), due);
    }
  }
}
