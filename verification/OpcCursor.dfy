/** push_readings: a forward cursor, a restart page and a backfill cursor over the readings table. */
module OpcCursor {
  import opened Common

  const PUSH_BATCH_SIZE := 500

  /** A row of tag_readings. Rows are kept in scan order, so their batch labels do not fall. */
  datatype Reading = Reading(tag: string, property: string, value: real, batch: int)

  ghost predicate InScanOrder(rows: seq<Reading>) {
    forall i, j | 0 <= i < j < |rows| :: rows[i].batch <= rows[j].batch
  }

  /** last is last_push_batch (none on a fresh start), before is _backfill_before; pushed and queued are the
      positions of the readings sent to the cloud and written into queued payloads. */
  datatype Cursor = Cursor(last: Option<int>, before: Option<int>, pushed: set<nat>, queued: set<nat>)

  /** Position of the first row with a batch above b, or of the end. */
  function FirstAbove(rows: seq<Reading>, b: int): (k: nat)
    ensures k <= |rows|
    ensures InScanOrder(rows) ==> forall i | 0 <= i < |rows| :: i < k <==> rows[i].batch <= b
  {
    if rows == [] then 0
    else if rows[|rows| - 1].batch <= b then |rows|
    else
      assert InScanOrder(rows) ==> InScanOrder(rows[..|rows| - 1]);
      FirstAbove(rows[..|rows| - 1], b)
  }

  datatype Kind = RestartPage | Forward | Backfill

  /** rows[lo..hi], the page the next call takes, if it takes one. */
  datatype Page = Page(lo: nat, hi: nat, kind: Kind)

  function AtLeastZero(x: int): nat {
    if x < 0 then 0 else x
  }

  function NextPage(rows: seq<Reading>, c: Cursor): (page: Option<Page>)
    ensures page.Some? ==> page.value.lo < page.value.hi <= |rows|
  {
    var n := |rows|;
    if c.last.None? then
      if n == 0 then None else Some(Page(AtLeastZero(n - PUSH_BATCH_SIZE), n, RestartPage))
    else
      var lo := FirstAbove(rows, c.last.value);
      if lo < n then Some(Page(lo, if lo + PUSH_BATCH_SIZE < n then lo + PUSH_BATCH_SIZE else n, Forward))
      else if c.before.None? then None
      else
        var hi := FirstAbove(rows, c.before.value - 1);
        if hi == 0 then None else Some(Page(AtLeastZero(hi - PUSH_BATCH_SIZE), hi, Backfill))
  }

  /** A row a page of this kind may take: any row, one above the forward cursor, one below the backfill cursor. */
  ghost predicate Due(rows: seq<Reading>, c: Cursor, kind: Kind, i: nat) {
    && i < |rows|
    && match kind
       case RestartPage => true
       case Forward => c.last.Some? && rows[i].batch > c.last.value
       case Backfill => c.before.Some? && rows[i].batch < c.before.value
  }

  /** Without a forward cursor a page of all rows is due, else one of the rows above it, else one of those below the
      backfill cursor. It takes 500 of them, or all: the first above the forward cursor, or the last of the others. */
  lemma PageIsDue(rows: seq<Reading>, c: Cursor)
    requires InScanOrder(rows)
    ensures var page := NextPage(rows, c);
            && (page.None? <==> forall i: nat :: if c.last.None? then !Due(rows, c, RestartPage, i)
                                                 else !Due(rows, c, Forward, i) && !Due(rows, c, Backfill, i))
            && (page.Some? ==>
                  var p := page.value;
                  && (p.kind.RestartPage? <==> c.last.None?)
                  && (p.kind.Backfill? ==> forall i: nat :: !Due(rows, c, Forward, i))
                  && (forall i | p.lo <= i < p.hi :: Due(rows, c, p.kind, i))
                  && (forall i: nat | Due(rows, c, p.kind, i) :: if p.kind.Forward? then p.lo <= i else i < p.hi)
                  && p.hi - p.lo <= 500
                  && (p.hi - p.lo < 500 ==> forall i: nat | Due(rows, c, p.kind, i) :: p.lo <= i < p.hi))
  {
    var page := NextPage(rows, c);
    if page.None? && c.last.None? {
      assert rows == [];
    }
    if page.Some? {
      assert Due(rows, c, page.value.kind, page.value.lo);
    }
  }

  /** The page's readings of enabled tags. */
  function Enabled(rows: seq<Reading>, page: Page, tags: set<string>): set<nat> {
    set i: nat | i < |rows| && page.lo <= i < page.hi && rows[i].tag in tags
  }

  /** One call of push_readings, whose POST, if it makes one, has the given outcome. */
  function Push(rows: seq<Reading>, c: Cursor, tags: set<string>, posted: bool): Cursor {
    match NextPage(rows, c)
    case None => if c.last.Some? then c.(before := None) else c
    case Some(page) =>
      Delivered(rows, if page.kind.Forward? then c else c.(before := Some(rows[page.lo].batch)), page, tags, posted)
  }

  /** The page is posted, or queued if the POST fails; the forward cursor moves unless that happens. */
  function Delivered(rows: seq<Reading>, c: Cursor, page: Page, tags: set<string>, posted: bool): Cursor
    requires page.lo < page.hi <= |rows|
  {
    var sent := Enabled(rows, page, tags);
    var advanced := if page.kind.Backfill? then c else c.(last := Some(rows[page.hi - 1].batch));
    if sent == {} then advanced
    else if posted then advanced.(pushed := c.pushed + sent)
    else c.(queued := c.queued + sent)
  }

  /** No reading of an enabled tag is forgotten. */
  ghost predicate Covered(rows: seq<Reading>, c: Cursor, tags: set<string>) {
    forall i: nat | i < |rows| && rows[i].tag in tags :: CoveredAt(rows, c, i)
  }

  /** Reading i was pushed or queued, or one of the cursors will come to it. */
  predicate CoveredAt(rows: seq<Reading>, c: Cursor, i: nat)
    requires i < |rows|
  {
    || i in c.pushed || i in c.queued
    || c.last.None? || rows[i].batch > c.last.value
    || (c.before.Some? && rows[i].batch < c.before.value)
  }

  /** The page does not cut through a batch at the end the cursor is then set to. */
  ghost predicate NoSplit(rows: seq<Reading>, c: Cursor) {
    match NextPage(rows, c)
    case None => true
    case Some(page) =>
      if page.kind.Forward? then page.hi < |rows| ==> rows[page.hi - 1].batch < rows[page.hi].batch
      else page.lo > 0 ==> rows[page.lo - 1].batch < rows[page.lo].batch
  }

  /** The table stays in order, and the forward cursor within it. */
  ghost predicate WithinTable(rows: seq<Reading>, c: Cursor) {
    InScanOrder(rows) && (c.last.Some? ==> rows != [] && c.last.value <= rows[|rows| - 1].batch)
  }

  ghost predicate Sound(rows: seq<Reading>, c: Cursor, tags: set<string>) {
    WithinTable(rows, c) && Covered(rows, c, tags)
  }

  /** Every call keeps coverage, whether its POST succeeds or fails. */
  lemma PushKeepsCoverage(rows: seq<Reading>, c: Cursor, tags: set<string>, posted: bool)
    requires Sound(rows, c, tags) && NoSplit(rows, c)
    ensures Sound(rows, Push(rows, c, tags, posted), tags)
  {
    var page := NextPage(rows, c);
    var c' := Push(rows, c, tags, posted);
    if page.Some? {
      var sent := Enabled(rows, page.value, tags);
      forall i: nat | i < |rows| && rows[i].tag in tags
        ensures CoveredAt(rows, c', i)
      {
        assert CoveredAt(rows, c, i);
        if page.value.lo <= i < page.value.hi { assert i in sent; }
      }
    }
  }

  /** A scan's rows carry one label, above every earlier one. */
  ghost predicate NewScan(rows: seq<Reading>, more: seq<Reading>) {
    && (forall i, j | 0 <= i < |rows| && 0 <= j < |more| :: rows[i].batch < more[j].batch)
    && (forall i, j | 0 <= i < |more| && 0 <= j < |more| :: more[i].batch == more[j].batch)
  }

  /** A new scan lies above the forward cursor. */
  lemma ScanKeepsCoverage(rows: seq<Reading>, more: seq<Reading>, c: Cursor, tags: set<string>)
    requires Sound(rows, c, tags)
    requires NewScan(rows, more)
    ensures Sound(rows + more, c, tags)
  {
  }

  /** A fresh process forgets both cursors; everything is again above last_push_batch. */
  lemma RestartKeepsCoverage(rows: seq<Reading>, c: Cursor, tags: set<string>)
    requires Sound(rows, c, tags)
    ensures Sound(rows, Cursor(None, None, c.pushed, c.queued), tags)
  {
  }

  /** Reading i is left out of the page, has the batch label at which the page sets its cursor, and nothing else
      covers it. */
  predicate CutOff(rows: seq<Reading>, c: Cursor, page: Page, i: nat)
    requires page.lo < page.hi <= |rows|
  {
    && i < |rows| && i !in c.pushed && i !in c.queued
    && match page.kind
       case Forward =>
         page.hi <= i && rows[i].batch == rows[page.hi - 1].batch && !(c.before.Some? && rows[i].batch < c.before.value)
       case Backfill => i < page.lo && rows[i].batch == rows[page.lo].batch && !(c.last.Some? && rows[i].batch > c.last.value)
       case RestartPage => i < page.lo && rows[i].batch == rows[page.lo].batch
  }

  /** The call moves the cursor that reads past the page: always in a backfill, else unless its POST fails. */
  predicate Moves(rows: seq<Reading>, page: Page, tags: set<string>, posted: bool) {
    page.kind.Backfill? || posted || Enabled(rows, page, tags) == {}
  }

  /** Exactly when a call forgets an enabled reading, for each kind of page, and whatever became of its POST: it moves
      the cursor, and an enabled reading is cut off. */
  lemma PageCoverageIff(rows: seq<Reading>, c: Cursor, tags: set<string>, posted: bool)
    requires Sound(rows, c, tags) && NextPage(rows, c).Some?
    ensures var page := NextPage(rows, c).value;
            Covered(rows, Push(rows, c, tags, posted), tags) <==>
            !(Moves(rows, page, tags, posted) && exists i: nat :: CutOff(rows, c, page, i) && rows[i].tag in tags)
  {
    var page := NextPage(rows, c).value;
    var c' := Push(rows, c, tags, posted);
    forall i: nat | i < |rows| && rows[i].tag in tags
      ensures CoveredAt(rows, c', i) <==> !(Moves(rows, page, tags, posted) && CutOff(rows, c, page, i))
    {
      assert CoveredAt(rows, c, i);
      assert page.lo <= i < page.hi ==> i in Enabled(rows, page, tags);
    }
  }

  // ---- whole runs ----

  /** What happens to the table and the cursors. A restart forgets both cursors. */
  datatype Event = Call(tags: set<string>, posted: bool) | Scan(more: seq<Reading>) | Restart

  function After(rows: seq<Reading>, c: Cursor, events: seq<Event>): (seq<Reading>, Cursor) {
    if events == [] then (rows, c) else
    var n := |events| - 1;
    var (r, d) := After(rows, c, events[..n]);
    match events[n]
    case Call(tags, posted) => (r, Push(r, d, tags, posted))
    case Scan(more) => (r + more, d)
    case Restart => (r, Cursor(None, None, d.pushed, d.queued))
  }

  function Fresh(events: seq<Event>): (seq<Reading>, Cursor) {
    After([], Cursor(None, None, {}, {}), events)
  }

  ghost predicate Scans(events: seq<Event>, tags: set<string>) {
    forall m | 0 <= m < |events| :: ScansAt(events, tags, m)
  }

  ghost predicate ScansAt(events: seq<Event>, tags: set<string>, m: nat)
    requires m < |events|
  {
    && (events[m].Scan? ==> NewScan(Fresh(events[..m]).0, events[m].more))
    && (events[m].Call? ==> events[m].tags == tags)
  }

  /** Call m forgets an enabled reading: it moves the cursor past a page that cuts one off. */
  ghost predicate CutsAt(events: seq<Event>, tags: set<string>, m: nat)
    requires m < |events|
  {
    && events[m].Call?
    && var (rows, c) := Fresh(events[..m]);
       && NextPage(rows, c).Some?
       && var page := NextPage(rows, c).value;
          Moves(rows, page, tags, events[m].posted) && exists i: nat :: CutOff(rows, c, page, i) && rows[i].tag in tags
  }

  ghost predicate CoveredAfter(events: seq<Event>, tags: set<string>, m: nat)
    requires m <= |events|
  {
    var (rows, c) := Fresh(events[..m]); Covered(rows, c, tags)
  }

  lemma PushStaysWithin(rows: seq<Reading>, c: Cursor, tags: set<string>, posted: bool)
    requires WithinTable(rows, c)
    ensures WithinTable(rows, Push(rows, c, tags, posted))
  {
  }

  lemma {:induction false} RunStaysWithin(events: seq<Event>, tags: set<string>, m: nat)
    requires Scans(events, tags) && m <= |events|
    ensures var (rows, c) := Fresh(events[..m]); WithinTable(rows, c)
  {
    if m > 0 {
      RunStaysWithin(events, tags, m - 1);
      assert events[..m][..m - 1] == events[..m - 1] && ScansAt(events, tags, m - 1);
      var (rows, c) := Fresh(events[..m - 1]);
      if events[m - 1].Call? { PushStaysWithin(rows, c, tags, events[m - 1].posted); }
    }
  }

  /** One event after a state that covers everything: the next one does, unless the event is a call that cuts. */
  lemma StepCoversIff(events: seq<Event>, tags: set<string>, m: nat)
    requires Scans(events, tags) && m < |events| && CoveredAfter(events, tags, m)
    ensures CoveredAfter(events, tags, m + 1) <==> !CutsAt(events, tags, m)
  {
    var (rows, c) := Fresh(events[..m]);
    RunStaysWithin(events, tags, m);
    assert events[..m + 1][..m] == events[..m] && ScansAt(events, tags, m);
    match events[m]
    case Call(_, posted) =>
      if NextPage(rows, c).Some? { PageCoverageIff(rows, c, tags, posted); } else { PushKeepsCoverage(rows, c, tags, posted); }
    case Scan(more) => ScanKeepsCoverage(rows, more, c, tags);
    case Restart => RestartKeepsCoverage(rows, c, tags);
  }

  /** From a fresh start, over any calls with these enabled tags, POSTs delivered or not, scans and restarts: no
      enabled reading is forgotten at any moment if and only if no call cuts one off. */
  lemma {:induction false} RunCoversIff(events: seq<Event>, tags: set<string>, n: nat)
    requires Scans(events, tags) && n <= |events|
    ensures (forall m | 0 <= m <= n :: CoveredAfter(events, tags, m)) <==> (forall m | 0 <= m < n :: !CutsAt(events, tags, m))
  {
    if n == 0 {
      assert events[..0] == [] && CoveredAfter(events, tags, 0);
    } else {
      RunCoversIff(events, tags, n - 1);
      if forall m | 0 <= m <= n - 1 :: CoveredAfter(events, tags, m) {
        StepCoversIff(events, tags, n - 1);
      }
    }
  }

  // ---- a reading that was cut off ----

  /** Reading i was not sent, and neither cursor will come to it. */
  predicate Stuck(rows: seq<Reading>, c: Cursor, i: nat) {
    i < |rows| && !CoveredAt(rows, c, i)
  }

  /** No restart, and scans whose labels do not fall below earlier ones. */
  ghost predicate Scanned(rows: seq<Reading>, c: Cursor, events: seq<Event>) {
    events != [] ==>
      var n := |events| - 1;
      && Scanned(rows, c, events[..n]) && !events[n].Restart?
      && (events[n].Scan? ==> InScanOrder(After(rows, c, events[..n]).0 + events[n].more))
  }

  lemma StuckStaysOnce(rows: seq<Reading>, c: Cursor, tags: set<string>, posted: bool, i: nat)
    requires InScanOrder(rows) && Stuck(rows, c, i)
    ensures Stuck(rows, Push(rows, c, tags, posted), i)
  {
  }

  /** Without a restart such a reading is never sent, whatever calls are made, with whatever enabled tags and
      outcomes, and whatever scans are appended. */
  lemma {:induction false} StuckStays(rows: seq<Reading>, c: Cursor, events: seq<Event>, i: nat)
    requires InScanOrder(rows) && Stuck(rows, c, i) && Scanned(rows, c, events)
    ensures var (r, d) := After(rows, c, events);
            InScanOrder(r) && Stuck(r, d, i) && |rows| <= |r| && r[i] == rows[i]
  {
    if events != [] {
      var n := |events| - 1;
      StuckStays(rows, c, events[..n], i);
      var (r, d) := After(rows, c, events[..n]);
      if events[n].Call? {
        StuckStaysOnce(r, d, events[n].tags, events[n].posted, i);
      }
    }
  }

  /** A batch of more than 500 readings, anywhere in the table: the page that reaches its first reading ends inside
      it, and if that call moves the cursor, what lies beyond the page is stuck. */
  lemma LargeScanIsCut(rows: seq<Reading>, c: Cursor, tags: set<string>, posted: bool, first: nat, end: nat, i: nat)
    requires InScanOrder(rows) && first + 500 < end <= |rows|
    requires forall k | first <= k < end :: rows[k].batch == rows[first].batch
    requires var page := NextPage(rows, c);
             && page.Some? && page.value.kind.Forward? && page.value.lo <= first < page.value.hi
             && Moves(rows, page.value, tags, posted)
    requires NextPage(rows, c).value.hi <= i < end && i !in c.pushed && i !in c.queued
    requires c.before.None? || c.before.value <= rows[first].batch
    ensures NextPage(rows, c).value.hi < end && Stuck(rows, Push(rows, c, tags, posted), i)
  {
  }

  /** A restart frees it, and sends it at once if it is among the last 500 readings of the table; otherwise it waits
      for the backfill if its batch lies wholly before those, and is cut off again if not. */
  lemma RestartResendsIff(rows: seq<Reading>, c: Cursor, tags: set<string>, i: nat)
    requires InScanOrder(rows) && Stuck(rows, c, i) && rows[i].tag in tags
    ensures var restarted := Cursor(None, None, c.pushed, c.queued);
            var c' := Push(rows, restarted, tags, true);
            var lo := if |rows| <= 500 then 0 else |rows| - 500;
            && (i in c'.pushed <==> i >= lo)
            && (i < lo && rows[i].batch < rows[lo].batch ==> c'.before.Some? && rows[i].batch < c'.before.value)
            && (i < lo && rows[i].batch == rows[lo].batch ==> Stuck(rows, c', i))
  {
    var lo := AtLeastZero(|rows| - PUSH_BATCH_SIZE);
    assert i >= lo ==> i in Enabled(rows, Page(lo, |rows|, RestartPage), tags);
  }

  /** What is left to do: rows above the forward cursor, rows below the backfill cursor, and the notice that
      there are none. */
  function Work(rows: seq<Reading>, c: Cursor): nat {
    if c.last.None? then if rows == [] then 0 else 2 * |rows| + 2 else Ahead(rows, c.last.value) + Behind(rows, c.before)
  }

  function Ahead(rows: seq<Reading>, last: int): nat {
    |rows| - FirstAbove(rows, last)
  }

  function Behind(rows: seq<Reading>, before: Option<int>): nat {
    if before.Some? then 1 + FirstAbove(rows, before.value - 1) else 0
  }

  lemma FirstAboveAt(rows: seq<Reading>, k: nat)
    requires InScanOrder(rows) && k < |rows|
    ensures FirstAbove(rows, rows[k].batch - 1) <= k < FirstAbove(rows, rows[k].batch)
  {
  }

  /** Where the cursors stand after a delivered page. */
  lemma PageMoves(rows: seq<Reading>, c: Cursor, tags: set<string>, page: Page)
    requires NextPage(rows, c) == Some(page)
    ensures var c' := Push(rows, c, tags, true);
            && c'.last == (if page.kind.Backfill? then c.last else Some(rows[page.hi - 1].batch))
            && c'.before == (if page.kind.Forward? then c.before else Some(rows[page.lo].batch))
  {
  }

  /** What is left of the two parts around a page. */
  lemma PartsAt(rows: seq<Reading>, c: Cursor, page: Page)
    requires InScanOrder(rows) && NextPage(rows, c) == Some(page)
    ensures Ahead(rows, rows[page.hi - 1].batch) <= |rows| - page.hi && Behind(rows, Some(rows[page.lo].batch)) <= 1 + page.lo
    ensures page.kind.Forward? ==> c.last.Some? && Ahead(rows, c.last.value) == |rows| - page.lo
    ensures page.kind.Backfill? ==> c.last.Some? && Behind(rows, c.before) == 1 + page.hi
  {
    FirstAboveAt(rows, page.lo);
    FirstAboveAt(rows, page.hi - 1);
  }

  lemma PageLowers(rows: seq<Reading>, c: Cursor, tags: set<string>, page: Page)
    requires InScanOrder(rows) && NextPage(rows, c) == Some(page)
    ensures Work(rows, Push(rows, c, tags, true)) < Work(rows, c)
  {
    PageMoves(rows, c, tags, page);
    PartsAt(rows, c, page);
  }

  /** Every reading of an enabled tag was pushed or queued. */
  ghost predicate AllSent(rows: seq<Reading>, c: Cursor, tags: set<string>) {
    forall i: nat | i < |rows| && rows[i].tag in tags :: i in c.pushed || i in c.queued
  }

  /** With the cloud reachable and no new scans, a call either finds nothing to do and changes nothing, all
      enabled readings being pushed or queued, or leaves strictly less to do. */
  lemma PushTerminates(rows: seq<Reading>, c: Cursor, tags: set<string>)
    requires Sound(rows, c, tags) && NoSplit(rows, c)
    ensures var c' := Push(rows, c, tags, true);
            if Work(rows, c) == 0 then
              c' == c && AllSent(rows, c, tags)
            else Work(rows, c') < Work(rows, c)
  {
    var page := NextPage(rows, c);
    if page.Some? {
      PageLowers(rows, c, tags, page.value);
    } else if c.before.None? {
      assert forall i: nat | i < |rows| && rows[i].tag in tags :: CoveredAt(rows, c, i);
    }
  }

  function Calls(rows: seq<Reading>, c: Cursor, tags: set<string>, n: nat): Cursor {
    if n == 0 then c else Push(rows, Calls(rows, c, tags, n - 1), tags, true)
  }

  lemma OneCall(rows: seq<Reading>, c: Cursor, tags: set<string>)
    requires Sound(rows, c, tags) && NoSplit(rows, c)
    ensures var c' := Push(rows, c, tags, true);
            && Sound(rows, c', tags) && Work(rows, c') <= AtLeastZero(Work(rows, c) - 1)
            && (Work(rows, c) == 0 ==> AllSent(rows, c', tags))
  {
    PushKeepsCoverage(rows, c, tags, true);
    PushTerminates(rows, c, tags);
  }

  /** So after at most Work calls, every reading of an enabled tag has been pushed or queued. */
  lemma {:induction false} CatchesUp(rows: seq<Reading>, c: Cursor, tags: set<string>, n: nat)
    requires Sound(rows, c, tags) && forall k: nat | k < n :: NoSplit(rows, Calls(rows, c, tags, k))
    ensures CaughtUp(rows, Calls(rows, c, tags, n), tags, n, Work(rows, c))
  {
    if n > 0 {
      CatchesUp(rows, c, tags, n - 1);
      CatchesUpOnce(rows, Calls(rows, c, tags, n - 1), tags, n - 1, Work(rows, c));
    }
  }

  /** Where n calls with so much work before them have come to. */
  ghost predicate CaughtUp(rows: seq<Reading>, c: Cursor, tags: set<string>, n: nat, work: nat) {
    Sound(rows, c, tags) && Work(rows, c) <= AtLeastZero(work - n) && (n > work ==> AllSent(rows, c, tags))
  }

  lemma CatchesUpOnce(rows: seq<Reading>, c: Cursor, tags: set<string>, n: nat, work: nat)
    requires CaughtUp(rows, c, tags, n, work) && NoSplit(rows, c)
    ensures CaughtUp(rows, Push(rows, c, tags, true), tags, n + 1, work)
  {
    OneCall(rows, c, tags);
  }

  /** The readings a payload carries. */
  function Select(rows: seq<Reading>, tags: set<string>): seq<Reading> {
    if rows == [] then [] else (if rows[0].tag in tags then [rows[0]] else []) + Select(rows[1..], tags)
  }

  lemma {:induction false} SelectEmptyIff(rows: seq<Reading>, page: Page, tags: set<string>)
    requires page.lo <= page.hi <= |rows|
    ensures Select(rows[page.lo..page.hi], tags) == [] <==> Enabled(rows, page, tags) == {}
    decreases page.hi - page.lo
  {
    if page.lo < page.hi {
      var rest := Page(page.lo + 1, page.hi, page.kind);
      assert rows[page.lo..page.hi][1..] == rows[rest.lo..rest.hi];
      SelectEmptyIff(rows, rest, tags);
      assert Enabled(rows, page, tags) == Enabled(rows, rest, tags) + if rows[page.lo].tag in tags then {page.lo} else {};
    }
  }

  lemma {:induction false} SelectKeeps(rows: seq<Reading>, k: nat, tags: set<string>) returns (at: seq<nat>)
    requires k <= |rows|
    ensures AllWhere(rows, k, at, (r: Reading) => r.tag in tags) && PickedAt(Select(rows[k..], tags), rows, at)
    decreases |rows| - k
  {
    at := [];
    if k < |rows| {
      var rest := SelectKeeps(rows, k + 1, tags);
      assert rows[k..][1..] == rows[k + 1..];
      OneInFront(Select(rows[k + 1..], tags), rows, k, rest, (r: Reading) => r.tag in tags);
      at := if rows[k].tag in tags then [k] + rest else rest;
    }
  }

  /** The payload is the page's enabled readings, all of them, in table order, each once. */
  lemma SelectIsEnabled(rows: seq<Reading>, page: Page, tags: set<string>) returns (at: seq<nat>)
    requires page.lo <= page.hi <= |rows|
    ensures AllWhere(rows[..page.hi], page.lo, at, (r: Reading) => r.tag in tags)
    ensures PickedAt(Select(rows[page.lo..page.hi], tags), rows[..page.hi], at)
  {
    at := SelectKeeps(rows[..page.hi], page.lo, tags);
    assert rows[..page.hi][page.lo..] == rows[page.lo..page.hi];
  }

  /** Every queued position's reading is in some queued payload. */
  ghost predicate QueueHolds(rows: seq<Reading>, queue: seq<seq<Reading>>, queued: set<nat>) {
    forall i | i in queued :: InQueue(rows, queue, i)
  }

  ghost predicate InQueue(rows: seq<Reading>, queue: seq<seq<Reading>>, i: nat) {
    i < |rows| && exists p | p in queue :: rows[i] in p
  }

  lemma QueueGrows(rows: seq<Reading>, queue: seq<seq<Reading>>, queued: set<nat>, page: Page, tags: set<string>)
    requires page.lo <= page.hi <= |rows| && QueueHolds(rows, queue, queued)
    ensures QueueHolds(rows, queue + [Select(rows[page.lo..page.hi], tags)], queued + Enabled(rows, page, tags))
  {
    var payload := Select(rows[page.lo..page.hi], tags);
    var at := SelectIsEnabled(rows, page, tags);
    forall i | i in queued + Enabled(rows, page, tags) ensures InQueue(rows, queue + [payload], i) {
      if i in queued {
        assert InQueue(rows, queue, i);
        var p :| p in queue && rows[i] in p;
        assert p in queue + [payload];
      } else {
        assert i in at;
        var k :| 0 <= k < |at| && at[k] == i;
        assert payload[k] in payload && payload in queue + [payload];
      }
    }
  }

  /** The sync object's part that pushes readings. */
  class CloudSync {
    var lastPushBatch: Option<int>
    var backfillBefore: Option<int>
    var syncQueue: seq<seq<Reading>>
    ghost var pushed: set<nat>
    ghost var queued: set<nat>

    ghost function CursorNow(): Cursor
      reads this
    {
      Cursor(lastPushBatch, backfillBefore, pushed, queued)
    }

    constructor ()
      ensures CursorNow() == Cursor(None, None, {}, {}) && syncQueue == []
    {
      lastPushBatch, backfillBefore, syncQueue, pushed, queued := None, None, [], {}, {};
    }

    /** `posted` is the outcome of the POST, `sent` its body if there is one, `batchId` the batch the caller just scanned, if it says. */
    method PushReadings(rows: seq<Reading>, tags: set<string>, batchId: Option<int>, posted: bool) returns (sent: Option<seq<Reading>>)
      modifies this
      ensures batchId.Some? && batchId == old(lastPushBatch) ==> CursorNow() == old(CursorNow()) && syncQueue == old(syncQueue)
      ensures !(batchId.Some? && batchId == old(lastPushBatch)) ==>
                var page := NextPage(rows, old(CursorNow()));
                && CursorNow() == Push(rows, old(CursorNow()), tags, posted)
                && syncQueue == (if page.Some? && !posted && Enabled(rows, page.value, tags) != {} then
                                   old(syncQueue) + [Select(rows[page.value.lo..page.value.hi], tags)]
                                 else old(syncQueue))
                && sent == (if page.Some? && Enabled(rows, page.value, tags) != {} then
                              Some(Select(rows[page.value.lo..page.value.hi], tags))
                            else None)
      ensures QueueHolds(rows, old(syncQueue), old(queued)) ==> QueueHolds(rows, syncQueue, queued)
    {
      sent := None;
      if batchId.Some? && batchId == lastPushBatch { return; }
      var isBackfill := false;
      var lo, hi: nat;
      ghost var kind;
      if lastPushBatch.None? {
        lo, hi, kind := AtLeastZero(|rows| - PUSH_BATCH_SIZE), |rows|, RestartPage;
        if lo == hi { return; }
        backfillBefore := Some(rows[lo].batch);
      } else {
        lo, kind := FirstAbove(rows, lastPushBatch.value), Forward;
        hi := if lo + PUSH_BATCH_SIZE < |rows| then lo + PUSH_BATCH_SIZE else |rows|;
        if lo == hi {
          if backfillBefore.None? { return; }
          hi, kind := FirstAbove(rows, backfillBefore.value - 1), Backfill;
          lo := AtLeastZero(hi - PUSH_BATCH_SIZE);
          if lo == hi {
            backfillBefore := None;
            return;
          }
          isBackfill := true;
          backfillBefore := Some(rows[lo].batch);
        }
      }
      sent := Deliver(rows, lo, hi, isBackfill, tags, posted, kind);
    }

    /** Sends the page rows[lo..hi]; `sent` is the body of the POST, if there is one. */
    method Deliver(rows: seq<Reading>, lo: nat, hi: nat, isBackfill: bool, tags: set<string>, posted: bool, ghost kind: Kind)
      returns (sent: Option<seq<Reading>>)
      requires lo < hi <= |rows| && isBackfill == kind.Backfill?
      modifies this
      ensures CursorNow() == Delivered(rows, old(CursorNow()), Page(lo, hi, kind), tags, posted)
      ensures syncQueue == if !posted && Enabled(rows, Page(lo, hi, kind), tags) != {} then
                             old(syncQueue) + [Select(rows[lo..hi], tags)]
                           else old(syncQueue)
      ensures sent == if Enabled(rows, Page(lo, hi, kind), tags) != {} then Some(Select(rows[lo..hi], tags)) else None
      ensures QueueHolds(rows, old(syncQueue), old(queued)) ==> QueueHolds(rows, syncQueue, queued)
    {
      var lastBatch := rows[hi - 1].batch;
      var readings := Select(rows[lo..hi], tags);
      SelectEmptyIff(rows, Page(lo, hi, kind), tags);
      if readings == [] {
        lastPushBatch := if isBackfill then lastPushBatch else Some(lastBatch);
        return None;
      }
      sent := Some(readings);
      if posted {
        pushed := pushed + Enabled(rows, Page(lo, hi, kind), tags);
        lastPushBatch := if isBackfill then lastPushBatch else Some(lastBatch);
      } else {
        if QueueHolds(rows, syncQueue, queued) {
          QueueGrows(rows, syncQueue, queued, Page(lo, hi, kind), tags);
        }
        queued := queued + Enabled(rows, Page(lo, hi, kind), tags);
        syncQueue := syncQueue + [readings];
      }
    }
  }
}
