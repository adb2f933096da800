/**
 * The grade awarded on completion: a percentage that depends only on the
 * elapsed whole seconds and the item set, through two step tables whose
 * thresholds are inclusive upper bounds.
 */
module Grading {
  import opened Items

  /** The grade `calculateGrade` assigns, written as its chain of comparisons. */
  function Grade(elapsed: nat, items: ItemSet): (g: nat)
    ensures 10 <= g <= 100
  {
    match items
    case Numbers =>
      if elapsed <= 20 then 100
      else if elapsed <= 60 then 80
      else if elapsed <= 90 then 70
      else if elapsed <= 120 then 60
      else if elapsed <= 180 then 50
      else if elapsed <= 240 then 40
      else if elapsed <= 300 then 30
      else if elapsed <= 360 then 20
      else 10
    case Letters =>
      if elapsed <= 30 then 100
      else if elapsed <= 60 then 90
      else if elapsed <= 90 then 80
      else if elapsed <= 120 then 70
      else if elapsed <= 180 then 60
      else if elapsed <= 240 then 50
      else if elapsed <= 300 then 40
      else if elapsed <= 360 then 30
      else 10
  }

  /** One row of a grade table: times up to `upTo` seconds earn `grade`. */
  datatype Band = Band(upTo: nat, grade: nat)

  /** The grade given to every time beyond the last row. */
  const FloorGrade: nat := 10

  /** The published tables, one row per step, in ascending order of time. */
  function Table(items: ItemSet): seq<Band> {
    match items
    case Numbers =>
      [Band(20, 100), Band(60, 80), Band(90, 70), Band(120, 60),
       Band(180, 50), Band(240, 40), Band(300, 30), Band(360, 20)]
    case Letters =>
      [Band(30, 100), Band(60, 90), Band(90, 80), Band(120, 70),
       Band(180, 60), Band(240, 50), Band(300, 40), Band(360, 30)]
  }

  /** The grade of the first row, from row `i` on, whose bound is not below `elapsed`, or the floor grade. */
  function LookupFrom(table: seq<Band>, i: nat, elapsed: nat): nat
    decreases |table| - i
  {
    if i >= |table| then FloorGrade
    else if elapsed <= table[i].upTo then table[i].grade
    else LookupFrom(table, i + 1, elapsed)
  }

  /** The grade a table gives to `elapsed` seconds. */
  function Lookup(table: seq<Band>, elapsed: nat): nat {
    LookupFrom(table, 0, elapsed)
  }

  /** Grades never rise from one row to the next and never fall below the floor. */
  predicate WellFormed(table: seq<Band>) {
    (forall i :: 0 <= i < |table| ==> FloorGrade <= table[i].grade)
    && (forall i, j :: 0 <= i < j < |table| ==> table[j].grade <= table[i].grade)
  }

  /** Both published tables are well formed and strictly ascending in time. */
  lemma TablesWellFormed(items: ItemSet)
    ensures WellFormed(Table(items))
    ensures forall i, j :: 0 <= i < j < |Table(items)| ==> Table(items)[i].upTo < Table(items)[j].upTo
  {
  }

  /** A lookup from row `i` of a well-formed table earns at most row `i`'s grade. */
  lemma {:induction false} LookupAtMostRow(table: seq<Band>, i: nat, elapsed: nat)
    requires WellFormed(table) && i < |table|
    ensures LookupFrom(table, i, elapsed) <= table[i].grade
    decreases |table| - i
  {
    if elapsed > table[i].upTo && i + 1 < |table| {
      LookupAtMostRow(table, i + 1, elapsed);
    }
  }

  /** A lookup from any row of a well-formed table is non-increasing in time. */
  lemma {:induction false} LookupFromMonotone(table: seq<Band>, i: nat, earlier: nat, later: nat)
    requires WellFormed(table) && earlier <= later
    ensures LookupFrom(table, i, later) <= LookupFrom(table, i, earlier)
    decreases |table| - i
  {
    if i < |table| && later > table[i].upTo {
      if earlier <= table[i].upTo {
        if i + 1 < |table| {
          LookupAtMostRow(table, i + 1, later);
        }
      } else {
        LookupFromMonotone(table, i + 1, earlier, later);
      }
    }
  }

  /** The comparison chain agrees with the table, row by row, for every time. */
  lemma GradeMatchesTable(elapsed: nat, items: ItemSet)
    ensures Grade(elapsed, items) == Lookup(Table(items), elapsed)
  {
    var t := Table(items);
    assert LookupFrom(t, 8, elapsed) == FloorGrade;
    assert LookupFrom(t, 7, elapsed) == if elapsed <= t[7].upTo then t[7].grade else FloorGrade;
    assert LookupFrom(t, 6, elapsed) == if elapsed <= t[6].upTo then t[6].grade else LookupFrom(t, 7, elapsed);
    assert LookupFrom(t, 5, elapsed) == if elapsed <= t[5].upTo then t[5].grade else LookupFrom(t, 6, elapsed);
    assert LookupFrom(t, 4, elapsed) == if elapsed <= t[4].upTo then t[4].grade else LookupFrom(t, 5, elapsed);
    assert LookupFrom(t, 3, elapsed) == if elapsed <= t[3].upTo then t[3].grade else LookupFrom(t, 4, elapsed);
    assert LookupFrom(t, 2, elapsed) == if elapsed <= t[2].upTo then t[2].grade else LookupFrom(t, 3, elapsed);
    assert LookupFrom(t, 1, elapsed) == if elapsed <= t[1].upTo then t[1].grade else LookupFrom(t, 2, elapsed);
  }

  /** Finishing later never earns a higher grade. */
  lemma GradeNonIncreasing(items: ItemSet, earlier: nat, later: nat)
    requires earlier <= later
    ensures Grade(later, items) <= Grade(earlier, items)
  {
    TablesWellFormed(items);
    GradeMatchesTable(earlier, items);
    GradeMatchesTable(later, items);
    LookupFromMonotone(Table(items), 0, earlier, later);
  }

  /** Full marks exactly up to the first bound: 30 s for letters, 20 s for numbers. */
  lemma FullMarksBoundary(items: ItemSet, elapsed: nat)
    ensures Grade(elapsed, items) == 100 <==> elapsed <= (if items == Letters then 30 else 20)
  {
  }

  /** The floor grade exactly after six minutes, for both item sets. */
  lemma FloorBoundary(items: ItemSet, elapsed: nat)
    ensures Grade(elapsed, items) == 10 <==> elapsed > 360
  {
  }
}
