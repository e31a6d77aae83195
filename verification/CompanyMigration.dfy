/** The backfill of rows without a company: phase one renumbers the MSPIL rows whose document number a
    legacy row already has, phase two gives the legacy rows to MSPIL. */
module CompanyMigration {
  import opened Common

  datatype Company = NoCompany | Mspil | Other(name: string)

  /** Table names matter only up to equality. */
  type TableName = int

  datatype Row = Row(id: string, company: Company, number: int, createdAt: int)

  datatype Change = Change(id: string, oldNo: int, newNo: int)

  datatype Outcome = Committed | RolledBack | Planned

  predicate DistinctIds(t: seq<Row>) {
    forall i, j :: 0 <= i < j < |t| ==> t[i].id != t[j].id
  }

  predicate Increasing(s: seq<int>) {
    forall i, j :: 0 <= i < j < |s| ==> s[i] < s[j]
  }

  /** The numbers of a company's rows. */
  function NumbersOf(t: seq<Row>, c: Company): set<int> {
    set i | 0 <= i < |t| && t[i].company == c :: t[i].number
  }

  function LegacyNumbers(t: seq<Row>): set<int> {
    NumbersOf(t, NoCompany)
  }

  predicate MustMove(legacy: set<int>, r: Row) {
    r.company.Mspil? && r.number in legacy
  }

  // ---- the queries ----

  lemma IncreasingCons(x: int, s: seq<int>)
    requires Increasing(s) && forall y :: y in s ==> x < y
    ensures Increasing([x] + s)
  {
    assert forall i :: 0 <= i < |s| ==> s[i] in s;
  }

  function InsertNumber(s: seq<int>, v: int): (r: seq<int>)
    requires Increasing(s)
    ensures Increasing(r)
    ensures forall x :: x in r <==> x in s || x == v
  {
    if s == [] || v < s[0] then [v] + s
    else if v == s[0] then s
    else
      var rest := InsertNumber(s[1..], v);
      assert s == [s[0]] + s[1..];
      IncreasingCons(s[0], rest);
      [s[0]] + rest
  }

  /** The INTERSECT query, in ascending order: the numbers that both a legacy and an MSPIL row have. */
  function FindDuplicates(t: seq<Row>): (dupes: seq<int>)
    ensures Increasing(dupes)
    ensures forall v :: v in dupes <==> v in LegacyNumbers(t) && v in NumbersOf(t, Mspil)
  {
    DuplicatesAmong(t, |t|)
  }

  function DuplicatesAmong(t: seq<Row>, n: nat): (dupes: seq<int>)
    requires n <= |t|
    ensures Increasing(dupes)
    ensures forall v :: v in dupes <==> v in NumbersOf(t[..n], NoCompany) && v in NumbersOf(t, Mspil)
  {
    if n == 0 then [] else
    var r, rest := t[n - 1], DuplicatesAmong(t, n - 1);
    assert NumbersOf(t[..n], NoCompany) == NumbersOf(t[..n - 1], NoCompany) + (if r.company.NoCompany? then {r.number} else {}) by {
      assert t[..n] == t[..n - 1] + [r];
      assert forall i :: 0 <= i < n - 1 ==> t[..n - 1][i] == t[..n][i];
      assert t[..n][n - 1] == r;
    }
    if r.company.NoCompany? && r.number in NumbersOf(t, Mspil) then InsertNumber(rest, r.number) else rest
  }

  /** MAX over the whole table, 0 when it is empty. */
  function GlobalMax(t: seq<Row>): (max: int)
    ensures forall i :: 0 <= i < |t| ==> t[i].number <= max
    ensures if t == [] then max == 0 else exists i :: 0 <= i < |t| && t[i].number == max
  {
    if t == [] then 0
    else if |t| == 1 then t[0].number
    else
      var rest := GlobalMax(t[1..]);
      assert forall i :: 0 < i < |t| ==> t[i] == t[1..][i - 1];
      if rest < t[0].number then t[0].number else
        var i :| 0 <= i < |t[1..]| && t[1..][i].number == rest;
        assert t[i + 1].number == rest;
        rest
  }

  predicate InOrder(a: Row, b: Row) {
    a.number < b.number || (a.number == b.number && a.createdAt <= b.createdAt)
  }

  predicate Sorted(s: seq<Row>) {
    forall i, j :: 0 <= i < j < |s| ==> InOrder(s[i], s[j])
  }

  /** The MSPIL rows with number v, oldest first; rows of one age come in any order. */
  ghost predicate IsSelection(t: seq<Row>, v: int, s: seq<Row>) {
    && DistinctIds(s) && Sorted(s)
    && (forall r :: r in s <==> r in t && r.company.Mspil? && r.number == v)
  }

  lemma SortedCons(x: Row, s: seq<Row>)
    requires Sorted(s) && DistinctIds(s) && forall y :: y in s ==> InOrder(x, y) && x.id != y.id
    ensures Sorted([x] + s) && DistinctIds([x] + s)
  {
    assert forall i :: 0 <= i < |s| ==> s[i] in s;
  }

  function InsertByAge(s: seq<Row>, r: Row): (out: seq<Row>)
    requires Sorted(s) && DistinctIds(s)
    requires forall x :: x in s ==> x.number == r.number && x.id != r.id
    ensures Sorted(out) && DistinctIds(out)
    ensures forall x :: x in out <==> x in s || x == r
  {
    if s == [] || r.createdAt < s[0].createdAt then [r] + s else
    var rest := InsertByAge(s[1..], r);
    assert s == [s[0]] + s[1..];
    SortedCons(s[0], rest);
    [s[0]] + rest
  }

  function ByAge(t: seq<Row>, v: int): (s: seq<Row>)
    requires DistinctIds(t)
    ensures IsSelection(t, v, s)
  {
    if t == [] then [] else
    var rest := ByAge(t[1..], v);
    assert t == [t[0]] + t[1..];
    assert forall x :: x in t[1..] ==> x.id != t[0].id;
    if t[0].company.Mspil? && t[0].number == v then InsertByAge(rest, t[0]) else rest
  }

  // ---- what the migration is for ----

  /** The numbers of u against those of t: only the MSPIL rows that share a number with a legacy row move,
      to distinct fresh numbers above the maximum, in the order of old number and age. */
  predicate NumbersMoved(t: seq<Row>, u: seq<Row>, legacy: set<int>, max: int)
    requires |t| == |u|
  {
    && (forall i :: 0 <= i < |t| ==> if MustMove(legacy, t[i]) then u[i].number > max else u[i].number == t[i].number)
    && (forall i, j :: 0 <= i < |t| && 0 <= j < |t| && i != j && MustMove(legacy, t[i]) && MustMove(legacy, t[j]) ==>
          u[i].number != u[j].number && (u[i].number < u[j].number ==> InOrder(t[i], t[j])))
  }

  /** Phase one: nothing but numbers changes. */
  predicate Renumbered(t: seq<Row>, u: seq<Row>) {
    && |u| == |t| && NumbersMoved(t, u, LegacyNumbers(t), GlobalMax(t))
    && (forall i :: 0 <= i < |t| ==> u[i] == t[i].(number := u[i].number))
  }

  /** Phase two: a legacy row becomes MSPIL's. */
  predicate Adopted(r: Row, s: Row) {
    s == r.(number := s.number, company := if r.company.NoCompany? then Mspil else r.company)
  }

  /** Both phases: the numbers move and the legacy rows become MSPIL's; ids, ages, other companies' rows stay. */
  predicate Migrated(t: seq<Row>, u: seq<Row>) {
    && |u| == |t| && NumbersMoved(t, u, LegacyNumbers(t), GlobalMax(t))
    && (forall i :: 0 <= i < |t| ==> Adopted(t[i], u[i]))
  }

  /** Every row of one company has its own number. */
  predicate Distinct(t: seq<Row>, c: Company) {
    forall i, j :: 0 <= i < j < |t| && t[i].company == t[j].company == c ==> t[i].number != t[j].number
  }

  /** The MSPIL rows whose number no legacy row has differ among themselves. */
  predicate UnsharedDistinct(t: seq<Row>, legacy: set<int>) {
    forall i, j :: 0 <= i < j < |t| && t[i].company.Mspil? && t[j].company.Mspil? && t[i].number !in legacy ==>
      t[i].number != t[j].number
  }

  lemma LegacyIsBelowMax(t: seq<Row>)
    ensures forall v :: v in LegacyNumbers(t) ==> v <= GlobalMax(t)
  {
  }

  /** Two rows that end up at MSPIL with one number had that number before and neither moved. */
  lemma TwoRows(t: seq<Row>, u: seq<Row>, i: int, j: int)
    requires Migrated(t, u) && 0 <= i < j < |t|
    requires u[i].company.Mspil? && u[j].company.Mspil? && u[i].number == u[j].number
    ensures t[i].number == t[j].number && t[i].company == t[j].company
    ensures t[i].company.Mspil? ==> t[i].number !in LegacyNumbers(t)
  {
  }

  /** The merged numbers are distinct exactly when the legacy numbers were and so were the MSPIL numbers that
      no legacy row has. MSPIL duplicates of a legacy number are pulled apart by the renumbering itself. */
  lemma MergedDistinctIff(t: seq<Row>, u: seq<Row>)
    requires Migrated(t, u)
    ensures Distinct(u, Mspil) <==> Distinct(t, NoCompany) && UnsharedDistinct(t, LegacyNumbers(t))
  {
    var legacy := LegacyNumbers(t);
    if Distinct(t, NoCompany) && UnsharedDistinct(t, legacy) {
      forall i, j | 0 <= i < j < |u| && u[i].company == u[j].company == Mspil
        ensures u[i].number != u[j].number
      {
        if u[i].number == u[j].number {
          TwoRows(t, u, i, j);
        }
      }
    }
    if Distinct(u, Mspil) {
      forall i, j | 0 <= i < j < |t| && t[i].company == t[j].company && !MustMove(legacy, t[i]) && !t[i].company.Other?
        ensures t[i].number != t[j].number
      {
        assert Adopted(t[i], u[i]) && Adopted(t[j], u[j]);
        assert u[i].company == u[j].company == Mspil;
      }
    }
  }

  /** After phase one no row shares a legacy number, and the legacy numbers are the same. */
  lemma NothingLeftToMove(t: seq<Row>, u: seq<Row>)
    requires Renumbered(t, u)
    ensures LegacyNumbers(u) == LegacyNumbers(t)
    ensures forall i :: 0 <= i < |u| ==> !MustMove(LegacyNumbers(u), u[i])
  {
    assert forall i :: 0 <= i < |u| && t[i].company.NoCompany? ==> u[i].number == t[i].number;
    LegacyIsBelowMax(t);
  }

  /** A run cut between the phases is made good by the next run. */
  lemma RunResumes(t: seq<Row>, u: seq<Row>, v: seq<Row>)
    requires Renumbered(t, u) && Migrated(u, v)
    ensures Migrated(t, v)
  {
    NothingLeftToMove(t, u);
    forall i | 0 <= i < |t|
      ensures v[i].number == u[i].number && Adopted(t[i], v[i])
    {
      assert !MustMove(LegacyNumbers(u), u[i]);
      assert Adopted(u[i], v[i]);
    }
    SameNumbers(t, u, v, LegacyNumbers(t), GlobalMax(t));
  }

  lemma SameNumbers(t: seq<Row>, u: seq<Row>, v: seq<Row>, legacy: set<int>, max: int)
    requires |t| == |u| == |v| && NumbersMoved(t, u, legacy, max)
    requires forall i :: 0 <= i < |u| ==> v[i].number == u[i].number
    ensures NumbersMoved(t, v, legacy, max)
  {
  }

  /** A second run changes nothing. */
  lemma SecondRunChangesNothing(t: seq<Row>, u: seq<Row>, v: seq<Row>)
    requires Migrated(t, u) && Migrated(u, v)
    ensures v == u
  {
    assert LegacyNumbers(u) == {} by {
      assert forall i :: 0 <= i < |u| ==> Adopted(t[i], u[i]);
    }
    forall i | 0 <= i < |u|
      ensures v[i] == u[i]
    {
      assert Adopted(t[i], u[i]) && Adopted(u[i], v[i]);
      assert !MustMove(LegacyNumbers(u), u[i]);
    }
  }

  lemma BackfillMigrates(t: seq<Row>, u: seq<Row>)
    requires Renumbered(t, u)
    ensures Migrated(t, Backfill(u))
  {
    SameNumbers(t, u, Backfill(u), LegacyNumbers(t), GlobalMax(t));
  }

  // ---- the updates ----

  function ApplyChange(t: seq<Row>, c: Change): (u: seq<Row>)
    ensures |u| == |t|
  {
    seq(|t|, i requires 0 <= i < |t| => if t[i].id == c.id then t[i].(number := c.newNo) else t[i])
  }

  function ApplyAll(t: seq<Row>, changes: seq<Change>): (u: seq<Row>)
    ensures |u| == |t|
  {
    if changes == [] then t else
    var n := |changes| - 1;
    ApplyChange(ApplyAll(t, changes[..n]), changes[n])
  }

  function Backfill(t: seq<Row>): (u: seq<Row>)
    ensures |u| == |t|
  {
    seq(|t|, i requires 0 <= i < |t| => if t[i].company.NoCompany? then t[i].(company := Mspil) else t[i])
  }

  function CountLegacy(t: seq<Row>): nat {
    if t == [] then 0 else
    var n := |t| - 1;
    CountLegacy(t[..n]) + if t[n].company.NoCompany? then 1 else 0
  }

  /** The rows the backfill changes. */
  function Changed(t: seq<Row>): set<int> {
    set i | 0 <= i < |t| && Backfill(t)[i] != t[i]
  }

  /** The count is the number of rows the backfill changes. */
  lemma {:induction false} CountsChanged(t: seq<Row>)
    ensures CountLegacy(t) == |Changed(t)|
  {
    if t != [] {
      var n := |t| - 1;
      CountsChanged(t[..n]);
      assert Changed(t) == Changed(t[..n]) + if t[n].company.NoCompany? then {n} else {};
    }
  }

  lemma NothingToBackfill(t: seq<Row>)
    requires CountLegacy(t) == 0
    ensures Backfill(t) == t
  {
    CountsChanged(t);
    assert forall i | 0 <= i < |t| :: i !in Changed(t);
  }

  lemma BackfillTwice(t: seq<Row>)
    ensures Backfill(Backfill(t)) == Backfill(t)
  {
  }

  /** The changes that give the listed rows consecutive numbers. */
  function Numbered(rows: seq<Row>, first: int): seq<Change> {
    seq(|rows|, k requires 0 <= k < |rows| => Change(rows[k].id, rows[k].number, first + k))
  }

  /** The MSPIL rows with a number among dupes, by number and age. */
  ghost predicate IsWorklist(t: seq<Row>, dupes: seq<int>, w: seq<Row>) {
    && DistinctIds(w) && Sorted(w)
    && (forall r :: r in w <==> r in t && r.company.Mspil? && r.number in dupes)
  }

  lemma {:induction false} AppliedAt(t: seq<Row>, w: seq<Row>, first: int, n: nat, j: nat)
    requires DistinctIds(w) && n <= |w| && j < |t|
    ensures var u := ApplyAll(t, Numbered(w, first)[..n]);
            && u[j] == t[j].(number := u[j].number)
            && (forall k :: 0 <= k < n && w[k].id == t[j].id ==> u[j].number == first + k)
            && ((forall k :: 0 <= k < n ==> w[k].id != t[j].id) ==> u[j] == t[j])
  {
    if n > 0 {
      AppliedAt(t, w, first, n - 1, j);
      var changes := Numbered(w, first);
      assert changes[..n][..n - 1] == changes[..n - 1];
    }
  }

  /** Row j stands at place k of the worklist and has the number of that place. */
  predicate Placed(t: seq<Row>, w: seq<Row>, u: seq<Row>, first: int, j: int, k: int) {
    0 <= j < |t| == |u| && 0 <= k < |w| && w[k] == t[j] && u[j].number == first + k
  }

  /** The worklist holds exactly the rows that must move. */
  predicate HoldsMovers(t: seq<Row>, w: seq<Row>, legacy: set<int>) {
    && DistinctIds(t) && DistinctIds(w) && Sorted(w)
    && (forall j :: 0 <= j < |t| ==> (t[j] in w <==> MustMove(legacy, t[j])))
    && (forall k :: 0 <= k < |w| ==> w[k] in t)
  }

  lemma WorklistHoldsMovers(t: seq<Row>, w: seq<Row>)
    requires DistinctIds(t) && IsWorklist(t, FindDuplicates(t), w)
    ensures HoldsMovers(t, w, LegacyNumbers(t))
  {
  }

  lemma RowMoves(t: seq<Row>, w: seq<Row>, first: int, j: int, k: int)
    requires DistinctIds(w) && 0 <= j < |t| && 0 <= k < |w| && w[k] == t[j]
    ensures Placed(t, w, ApplyAll(t, Numbered(w, first)), first, j, k)
    ensures ApplyAll(t, Numbered(w, first))[j] == t[j].(number := first + k)
  {
    assert Numbered(w, first)[..|w|] == Numbered(w, first);
    AppliedAt(t, w, first, |w|, j);
  }

  lemma RowStays(t: seq<Row>, w: seq<Row>, first: int, j: int)
    requires DistinctIds(w) && 0 <= j < |t|
    requires forall k :: 0 <= k < |w| ==> w[k].id != t[j].id
    ensures ApplyAll(t, Numbered(w, first))[j] == t[j]
  {
    assert Numbered(w, first)[..|w|] == Numbered(w, first);
    AppliedAt(t, w, first, |w|, j);
  }

  /** Row j has moved to its place, or is as it was. */
  predicate MovedOrKept(t: seq<Row>, w: seq<Row>, u: seq<Row>, max: int, legacy: set<int>, j: int) {
    && 0 <= j < |t| == |u| && u[j] == t[j].(number := u[j].number)
    && if MustMove(legacy, t[j]) then Placed(t, w, u, max + 1, j, u[j].number - max - 1) else u[j] == t[j]
  }

  lemma NotListed(t: seq<Row>, w: seq<Row>, legacy: set<int>, j: int)
    requires HoldsMovers(t, w, legacy) && 0 <= j < |t| && t[j] !in w
    ensures forall k :: 0 <= k < |w| ==> w[k].id != t[j].id
  {
    forall k | 0 <= k < |w|
      ensures w[k].id != t[j].id
    {
      var i :| 0 <= i < |t| && t[i] == w[k];
      DifferentIds(t, i, j);
    }
  }

  lemma ListedMoves(t: seq<Row>, w: seq<Row>, max: int, legacy: set<int>, j: int, k: int)
    requires DistinctIds(w) && 0 <= j < |t| && 0 <= k < |w| && w[k] == t[j] && MustMove(legacy, t[j])
    ensures MovedOrKept(t, w, ApplyAll(t, Numbered(w, max + 1)), max, legacy, j)
  {
    RowMoves(t, w, max + 1, j, k);
  }

  lemma UnlistedStays(t: seq<Row>, w: seq<Row>, max: int, legacy: set<int>, j: int)
    requires DistinctIds(w) && 0 <= j < |t| && (forall k :: 0 <= k < |w| ==> w[k].id != t[j].id) && !MustMove(legacy, t[j])
    ensures MovedOrKept(t, w, ApplyAll(t, Numbered(w, max + 1)), max, legacy, j)
  {
    RowStays(t, w, max + 1, j);
  }

  lemma RowMovedOrKept(t: seq<Row>, w: seq<Row>, max: int, legacy: set<int>, j: int)
    requires HoldsMovers(t, w, legacy) && 0 <= j < |t|
    ensures MovedOrKept(t, w, ApplyAll(t, Numbered(w, max + 1)), max, legacy, j)
  {
    if t[j] in w {
      var k :| 0 <= k < |w| && w[k] == t[j];
      ListedMoves(t, w, max, legacy, j, k);
    } else {
      NotListed(t, w, legacy, j);
      UnlistedStays(t, w, max, legacy, j);
    }
  }

  lemma PlacesKeepOrder(t: seq<Row>, w: seq<Row>, u: seq<Row>, first: int, i: int, j: int, k: int, l: int)
    requires Sorted(w) && Placed(t, w, u, first, i, k) && Placed(t, w, u, first, j, l) && t[i] != t[j]
    ensures u[i].number != u[j].number && (u[i].number < u[j].number ==> InOrder(t[i], t[j]))
  {
  }

  lemma DifferentIds(t: seq<Row>, i: int, j: int)
    requires DistinctIds(t) && 0 <= i < |t| && 0 <= j < |t| && i != j
    ensures t[i].id != t[j].id
  {
  }

  lemma MoversKeepOrder(t: seq<Row>, w: seq<Row>, u: seq<Row>, max: int, legacy: set<int>, i: int, j: int)
    requires DistinctIds(t) && Sorted(w) && i != j
    requires MovedOrKept(t, w, u, max, legacy, i) && MovedOrKept(t, w, u, max, legacy, j)
    requires MustMove(legacy, t[i]) && MustMove(legacy, t[j])
    ensures u[i].number != u[j].number && (u[i].number < u[j].number ==> InOrder(t[i], t[j]))
  {
    DifferentIds(t, i, j);
    PlacesKeepOrder(t, w, u, max + 1, i, j, u[i].number - max - 1, u[j].number - max - 1);
  }

  lemma MovedMeansRenumbered(t: seq<Row>, w: seq<Row>, u: seq<Row>, max: int, legacy: set<int>)
    requires |u| == |t| && DistinctIds(t) && Sorted(w)
    requires forall i :: 0 <= i < |t| ==> MovedOrKept(t, w, u, max, legacy, i)
    ensures NumbersMoved(t, u, legacy, max) && forall i :: 0 <= i < |t| ==> u[i] == t[i].(number := u[i].number)
  {
    forall i | 0 <= i < |t|
      ensures u[i] == t[i].(number := u[i].number)
      ensures if MustMove(legacy, t[i]) then u[i].number > max else u[i].number == t[i].number
    {
      assert MovedOrKept(t, w, u, max, legacy, i);
    }
    forall i, j | 0 <= i < |t| && 0 <= j < |t| && i != j && MustMove(legacy, t[i]) && MustMove(legacy, t[j])
      ensures u[i].number != u[j].number && (u[i].number < u[j].number ==> InOrder(t[i], t[j]))
    {
      MoversKeepOrder(t, w, u, max, legacy, i, j);
    }
  }

  /** Numbering the movers consecutively, in worklist order, above the maximum is a renumbering. */
  lemma RenumberingIsSound(t: seq<Row>, w: seq<Row>, max: int, legacy: set<int>)
    requires HoldsMovers(t, w, legacy) && max == GlobalMax(t) && legacy == LegacyNumbers(t)
    ensures Renumbered(t, ApplyAll(t, Numbered(w, max + 1)))
  {
    var u := ApplyAll(t, Numbered(w, max + 1));
    forall i | 0 <= i < |t|
      ensures MovedOrKept(t, w, u, max, legacy, i)
    {
      RowMovedOrKept(t, w, max, legacy, i);
    }
    MovedMeansRenumbered(t, w, u, max, legacy);
  }

  /** The movers get the numbers above the maximum, by old number and age. */
  ghost predicate IsPlan(t: seq<Row>, changes: seq<Change>, max: int, legacy: set<int>) {
    exists w :: HoldsMovers(t, w, legacy) && changes == Numbered(w, max + 1)
  }

  /** The changes number a worklist consecutively above the maximum. */
  ghost predicate NumbersWorklist(t: seq<Row>, dupes: seq<int>, changes: seq<Change>) {
    exists w :: IsWorklist(t, dupes, w) && changes == Numbered(w, GlobalMax(t) + 1)
  }

  lemma WorklistIsPlan(t: seq<Row>, changes: seq<Change>)
    requires DistinctIds(t) && NumbersWorklist(t, FindDuplicates(t), changes)
    ensures IsPlan(t, changes, GlobalMax(t), LegacyNumbers(t))
  {
    var w :| IsWorklist(t, FindDuplicates(t), w) && changes == Numbered(w, GlobalMax(t) + 1);
    WorklistHoldsMovers(t, w);
  }

  lemma PlanIsSound(t: seq<Row>, changes: seq<Change>, max: int, legacy: set<int>)
    requires IsPlan(t, changes, max, legacy) && max == GlobalMax(t) && legacy == LegacyNumbers(t)
    ensures Renumbered(t, ApplyAll(t, changes))
  {
    var w :| HoldsMovers(t, w, legacy) && changes == Numbered(w, max + 1);
    RenumberingIsSound(t, w, max, legacy);
  }

  /** The new numbers are consecutive: each is taken, from one above the old maximum on, and the plan names the
      row that takes it with its old and its new number. */
  lemma NumbersAreConsecutive(t: seq<Row>, w: seq<Row>, max: int, legacy: set<int>, k: nat)
    requires HoldsMovers(t, w, legacy) && k < |w|
    ensures var u := ApplyAll(t, Numbered(w, max + 1));
            exists j :: 0 <= j < |t| && MustMove(legacy, t[j]) && u[j].number == max + 1 + k
                        && Numbered(w, max + 1)[k] == Change(t[j].id, t[j].number, u[j].number)
  {
    assert w[k] in t;
    var j :| 0 <= j < |t| && t[j] == w[k];
    RowMoves(t, w, max + 1, j, k);
  }

  lemma WorklistGrows(t: seq<Row>, dupes: seq<int>, k: nat, w: seq<Row>, s: seq<Row>)
    requires DistinctIds(t) && Increasing(dupes) && k < |dupes|
    requires IsWorklist(t, dupes[..k], w) && IsSelection(t, dupes[k], s)
    ensures IsWorklist(t, dupes[..k + 1], w + s)
  {
  }

  /** The named tables are renumbered; nothing else has changed. */
  ghost predicate RenumberedIn(tables: map<TableName, seq<Row>>, was: map<TableName, seq<Row>>, names: seq<TableName>) {
    tables.Keys == was.Keys && forall t | t in tables :: if t in names then Renumbered(was[t], tables[t]) else tables[t] == was[t]
  }

  lemma RenumberedNext(tables: map<TableName, seq<Row>>, was: map<TableName, seq<Row>>, names: seq<TableName>, name: TableName, u: seq<Row>)
    requires RenumberedIn(tables, was, names) && name in tables && Renumbered(was[name], u)
    ensures RenumberedIn(tables[name := u], was, names + [name])
  {
  }

  /** The named tables that could be written are backfilled; nothing else has changed. */
  ghost predicate BackfilledIn(tables: map<TableName, seq<Row>>, was: map<TableName, seq<Row>>, names: seq<TableName>, dryRun: bool,
                               writes: TableName -> bool)
    requires tables.Keys == was.Keys
  {
    forall t | t in tables :: tables[t] == if t in names && !dryRun && writes(t) then Backfill(was[t]) else was[t]
  }

  lemma BackfilledNext(tables: map<TableName, seq<Row>>, was: map<TableName, seq<Row>>, names: seq<TableName>, name: TableName,
                       dryRun: bool, writes: TableName -> bool)
    requires tables.Keys == was.Keys && name in tables && BackfilledIn(tables, was, names, dryRun, writes)
    ensures var tables' := tables[name := if !dryRun && writes(name) then Backfill(tables[name]) else tables[name]];
            BackfilledIn(tables', was, names + [name], dryRun, writes)
  {
    BackfillTwice(was[name]);
  }

  /** What a run that was not aborted has made of a table. */
  predicate TableDone(t: seq<Row>, u: seq<Row>, numbered: bool, written: bool) {
    if numbered then (if written then Migrated(t, u) else Renumbered(t, u))
    else u == if written then Backfill(t) else t
  }

  lemma AllDone(was: map<TableName, seq<Row>>, between: map<TableName, seq<Row>>, now: map<TableName, seq<Row>>, numbered: seq<TableName>,
                all: seq<TableName>, writes: TableName -> bool)
    requires RenumberedIn(between, was, numbered) && now.Keys == between.Keys && BackfilledIn(now, between, all, false, writes)
    requires forall t | t in numbered :: t in all && t in was && DistinctIds(was[t])
    ensures forall t | t in now :: TableDone(was[t], now[t], t in numbered, t in all && writes(t))
  {
    forall t | t in now
      ensures TableDone(was[t], now[t], t in numbered, t in all && writes(t))
    {
      if t in numbered { BackfillMigrates(was[t], between[t]); }
    }
  }

  class Database {
    var tables: map<TableName, seq<Row>>

    constructor (tables: map<TableName, seq<Row>>)
      ensures this.tables == tables
    {
      this.tables := tables;
    }

    /** The rows of one duplicated number, as the database may order them. */
    method SelectMspil(table: TableName, v: int) returns (s: seq<Row>)
      requires table in tables && DistinctIds(tables[table])
      ensures IsSelection(tables[table], v, s)
    {
      s := ByAge(tables[table], v);
    }

    method PlanChanges(table: TableName, dupes: seq<int>) returns (changes: seq<Change>)
      requires table in tables && DistinctIds(tables[table]) && Increasing(dupes)
      ensures NumbersWorklist(tables[table], dupes, changes)
    {
      var first := GlobalMax(tables[table]) + 1;
      var next := first;
      ghost var w := [];
      changes := [];
      for k := 0 to |dupes|
        invariant IsWorklist(tables[table], dupes[..k], w)
        invariant changes == Numbered(w, first) && next == first + |changes|
      {
        var selected := SelectMspil(table, dupes[k]);
        for m := 0 to |selected|
          invariant changes == Numbered(w + selected[..m], first) && next == first + |changes|
        {
          changes := changes + [Change(selected[m].id, dupes[k], next)];
          next := next + 1;
          assert selected[m] in selected;
        }
        assert selected[..|selected|] == selected;
        WorklistGrows(tables[table], dupes, k, w, selected);
        w := w + selected;
      }
      assert dupes[..|dupes|] == dupes;
    }

    /** The changes for every duplicated number. */
    method PlanDuplicates(table: TableName) returns (changes: seq<Change>)
      requires table in tables && DistinctIds(tables[table])
      ensures IsPlan(tables[table], changes, GlobalMax(tables[table]), LegacyNumbers(tables[table]))
    {
      changes := PlanChanges(table, FindDuplicates(tables[table]));
      WorklistIsPlan(tables[table], changes);
    }

    method ApplyChanges(table: TableName, changes: seq<Change>)
      requires table in tables
      modifies this
      ensures tables == old(tables)[table := ApplyAll(old(tables)[table], changes)]
    {
      for i := 0 to |changes|
        invariant tables == old(tables)[table := ApplyAll(old(tables)[table], changes[..i])]
      {
        tables := tables[table := ApplyChange(tables[table], changes[i])];
        assert changes[..i + 1][..i] == changes[..i];
      }
      assert changes[..|changes|] == changes;
    }

    /** One transaction, which the check of the dependents can roll back. */
    method RenumberDuplicates(table: TableName, dryRun: bool, dependentsKept: bool) returns (changes: seq<Change>, outcome: Outcome)
      requires table in tables && DistinctIds(tables[table])
      modifies this
      ensures tables == if outcome.Committed? then old(tables)[table := ApplyAll(old(tables)[table], changes)] else old(tables)
      ensures Renumbered(old(tables)[table], ApplyAll(old(tables)[table], changes))
      ensures outcome.Planned? <==> dryRun
      ensures outcome.RolledBack? <==> !dryRun && !dependentsKept && changes != []
      ensures IsPlan(old(tables)[table], changes, GlobalMax(old(tables)[table]), LegacyNumbers(old(tables)[table]))
    {
      changes := PlanDuplicates(table);
      PlanIsSound(tables[table], changes, GlobalMax(tables[table]), LegacyNumbers(tables[table]));
      if dryRun { return changes, Planned; }
      var saved := tables;
      ApplyChanges(table, changes);
      if !dependentsKept && changes != [] {
        tables := saved;
        outcome := RolledBack;
      } else {
        outcome := Committed;
      }
    }

    method BackfillTable(table: TableName, dryRun: bool, writes: bool) returns (n: nat, outcome: Outcome)
      requires table in tables
      modifies this
      ensures n == |Changed(old(tables)[table])|
      ensures tables == old(tables)[table := if !dryRun && writes then Backfill(old(tables)[table]) else old(tables)[table]]
      ensures dryRun ==> tables == old(tables)
      ensures outcome.Committed? <==> n == 0 || (!dryRun && writes)
    {
      n := CountLegacy(tables[table]);
      CountsChanged(tables[table]);
      if n == 0 {
        NothingToBackfill(tables[table]);
        return 0, Committed;
      }
      if dryRun { return n, Planned; }
      if !writes { return n, RolledBack; }
      tables := tables[table := Backfill(tables[table])];
      outcome := Committed;
    }

    /** Phase one over the numbered tables. A dependents check that fails ends the script. */
    method RenumberAll(numbered: seq<TableName>, dryRun: bool, dependentsKept: TableName -> bool)
      returns (aborted: bool, ghost done: nat)
      requires forall i, j :: 0 <= i < j < |numbered| ==> numbered[i] != numbered[j]
      requires forall t | t in numbered :: t in tables && DistinctIds(tables[t])
      modifies this
      ensures if aborted then !dryRun && done < |numbered| && !dependentsKept(numbered[done]) else done == |numbered|
      ensures if dryRun then tables == old(tables) else RenumberedIn(tables, old(tables), numbered[..done])
    {
      for i := 0 to |numbered|
        invariant if dryRun then tables == old(tables) else RenumberedIn(tables, old(tables), numbered[..i])
      {
        ghost var before, t := tables, numbered[i];
        assert t !in numbered[..i];
        var changes, outcome := RenumberDuplicates(numbered[i], dryRun, dependentsKept(numbered[i]));
        if outcome.RolledBack? { return true, i; }
        if !dryRun { RenumberedNext(before, old(tables), numbered[..i], t, tables[t]); }
        assert numbered[..i + 1] == numbered[..i] + [t];
      }
      return false, |numbered|;
    }

    /** Phase two over all tables. One that cannot be written is passed over. */
    method BackfillAll(all: seq<TableName>, dryRun: bool, writes: TableName -> bool)
      requires forall t | t in all :: t in tables
      modifies this
      ensures tables.Keys == old(tables).Keys
      ensures BackfilledIn(tables, old(tables), all, dryRun, writes) && (dryRun ==> tables == old(tables))
    {
      assert all[..0] == [];
      for i := 0 to |all|
        invariant dryRun ==> tables == old(tables)
        invariant tables.Keys == old(tables).Keys && BackfilledIn(tables, old(tables), all[..i], dryRun, writes)
      {
        BackfilledNext(tables, old(tables), all[..i], all[i], dryRun, writes);
        OneMore(all, i);
        var n, outcome := BackfillTable(all[i], dryRun, writes(all[i]));
      }
      assert all[..|all|] == all;
    }

    /** The script: phase one over the numbered tables, then phase two over all. */
    method Migrate(numbered: seq<TableName>, all: seq<TableName>, dryRun: bool, dependentsKept: TableName -> bool,
                   writes: TableName -> bool)
      returns (aborted: bool, ghost done: nat)
      requires forall i, j :: 0 <= i < j < |numbered| ==> numbered[i] != numbered[j]
      requires forall t | t in numbered :: t in all
      requires forall t | t in all :: t in tables && DistinctIds(tables[t])
      modifies this
      ensures dryRun ==> tables == old(tables)
      ensures aborted ==> done < |numbered| && !dependentsKept(numbered[done]) && RenumberedIn(tables, old(tables), numbered[..done])
      ensures !aborted && !dryRun ==> tables.Keys == old(tables).Keys
      ensures !aborted && !dryRun ==>
                forall t | t in tables :: TableDone(old(tables)[t], tables[t], t in numbered, t in all && writes(t))
    {
      aborted, done := RenumberAll(numbered, dryRun, dependentsKept);
      assert numbered[..|numbered|] == numbered;
      if aborted { return; }
      ghost var between := tables;
      BackfillAll(all, dryRun, writes);
      if !dryRun { AllDone(old(tables), between, tables, numbered, all, writes); }
    }
  }

}
