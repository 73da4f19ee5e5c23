/** `handleCreate` of `src/components/MapEditor/CreateRowDialog.tsx`: three
    input guards, then a loop that builds `rowCount` rows of `seatCount` seats
    each and hands every row to the store's `addRow`. */
module RowGenerator {
  import opened Common
  import opened Text
  import opened MapModel
  import opened MapStore

  /** Which guard stopped the dialog, or that the rows were created. */
  datatype CreateOutcome = Created | MissingLabel | RowCountOutOfRange | SeatCountOutOfRange

  const MaxRowCount: int := 50
  const MaxSeatCount: int := 100
  /** Horizontal distance between neighbouring seats of a generated row. */
  const SeatSpacing: int := 30

  /** The three guards, checked in the dialog's order: a label that trims to
      nothing, then a row count outside [1, 50], then a seat count outside
      [1, 100]. */
  function Validate(rowLabel: string, rowCount: int, seatCount: int): (o: CreateOutcome)
    ensures o == MissingLabel <==> AllWhitespace(rowLabel)
    ensures o == RowCountOutOfRange <==> !AllWhitespace(rowLabel) && !(1 <= rowCount <= MaxRowCount)
    ensures o == SeatCountOutOfRange <==>
      !AllWhitespace(rowLabel) && 1 <= rowCount <= MaxRowCount && !(1 <= seatCount <= MaxSeatCount)
    ensures o == Created <==>
      !AllWhitespace(rowLabel) && 1 <= rowCount <= MaxRowCount && 1 <= seatCount <= MaxSeatCount
  {
    TrimEmptyIffWhitespace(rowLabel);
    if Trim(rowLabel) == [] then MissingLabel
    else if rowCount < 1 || rowCount > MaxRowCount then RowCountOutOfRange
    else if seatCount < 1 || seatCount > MaxSeatCount then SeatCountOutOfRange
    else Created
  }

  /** `rowLabelFinal` of the `r`-th pass (0-based). */
  function RowLabel(rowLabel: string, rowCount: int, r: nat): string {
    if rowCount > 1 then Trim(rowLabel) + " " + NatToString(r + 1) else Trim(rowLabel)
  }

  /** The label of seat `i` (0-based) of a row labelled `rowLabelFinal`. */
  function SeatLabel(seatPrefix: string, rowLabelFinal: string, i: nat): string {
    if Trim(seatPrefix) != [] then Trim(seatPrefix) + NatToString(i + 1)
    else rowLabelFinal + NatToString(i + 1)
  }

  /** The `Array.from` builder: the seats of the `r`-th generated row, their
      ids taken from `seatIds`. */
  function BuildSeats(r: nat, seatCount: nat, seatPrefix: string, rowLabelFinal: string,
                      seatIds: (nat, nat) -> string): seq<Seat>
  {
    seq(seatCount, i requires 0 <= i < seatCount =>
      Seat(seatIds(r, i), SeatLabel(seatPrefix, rowLabelFinal, i), i * SeatSpacing, 0, false))
  }

  /** The row handed to `addRow` on the `r`-th pass. */
  function BuildRow(r: nat, rowLabel: string, rowCount: nat, seatCount: nat, seatPrefix: string,
                    rowIds: nat -> string, seatIds: (nat, nat) -> string): Row
  {
    var rowLabelFinal := RowLabel(rowLabel, rowCount, r);
    Row(rowIds(r), rowLabelFinal, BuildSeats(r, seatCount, seatPrefix, rowLabelFinal, seatIds))
  }

  /** All rows one successful `handleCreate` appends, in loop order. */
  function GeneratedRows(rowLabel: string, rowCount: nat, seatCount: nat, seatPrefix: string,
                         rowIds: nat -> string, seatIds: (nat, nat) -> string): seq<Row>
  {
    seq(rowCount, r requires 0 <= r < rowCount =>
      BuildRow(r, rowLabel, rowCount, seatCount, seatPrefix, rowIds, seatIds))
  }

  /** `addRow` applied once per row, first row first. */
  function AddRows(m: MapData, sectionId: string, rows: seq<Row>): MapData
    decreases |rows|
  {
    if rows == [] then m
    else AddRow(AddRows(m, sectionId, rows[..|rows| - 1]), sectionId, rows[|rows| - 1])
  }

  /** The sections after appending `rows` to every section with the id. */
  ghost predicate AppendedTo(m: MapData, r: MapData, sectionId: string, rows: seq<Row>) {
    && r.id == m.id && r.name == m.name && |r.sections| == |m.sections|
    && forall i :: 0 <= i < |m.sections| ==>
         r.sections[i] == if m.sections[i].id == sectionId
                          then m.sections[i].(rows := m.sections[i].rows + rows)
                          else m.sections[i]
  }

  lemma AppendedToStep(m: MapData, prev: MapData, sectionId: string, front: seq<Row>, last: Row)
    requires AppendedTo(m, prev, sectionId, front)
    ensures AppendedTo(m, AddRow(prev, sectionId, last), sectionId, front + [last])
  {
    var r := AddRow(prev, sectionId, last);
    forall i | 0 <= i < |m.sections|
      ensures r.sections[i] == if m.sections[i].id == sectionId
                               then m.sections[i].(rows := m.sections[i].rows + (front + [last]))
                               else m.sections[i]
    {
      var s := m.sections[i];
      if s.id == sectionId {
        assert s.rows + front + [last] == s.rows + (front + [last]);
      }
    }
  }

  /** Handing a list of rows to `addRow` one by one appends the whole list, in
      order, to every section with the id, and leaves every other section and
      the map's id and name as they were. */
  lemma {:induction false} AddRowsAppends(m: MapData, sectionId: string, rows: seq<Row>)
    ensures AppendedTo(m, AddRows(m, sectionId, rows), sectionId, rows)
    decreases |rows|
  {
    if rows == [] {
      forall i | 0 <= i < |m.sections| && m.sections[i].id == sectionId
        ensures m.sections[i].(rows := m.sections[i].rows + rows) == m.sections[i]
      {
        assert m.sections[i].rows + rows == m.sections[i].rows;
      }
    } else {
      var front, last := rows[..|rows| - 1], rows[|rows| - 1];
      AddRowsAppends(m, sectionId, front);
      AppendedToStep(m, AddRows(m, sectionId, front), sectionId, front, last);
      assert front + [last] == rows;
    }
  }

  /** What each generated row and seat looks like: `rowCount` rows, row `r`
      with id `rowIds(r)` and label "label r+1" (just "label" for a single
      row), each with `seatCount` free seats at x = 30·i, y = 0, labelled by
      the trimmed prefix, or else the row label, followed by i+1. */
  lemma GeneratedRowsShape(rowLabel: string, rowCount: nat, seatCount: nat, seatPrefix: string,
                           rowIds: nat -> string, seatIds: (nat, nat) -> string)
    ensures var rows := GeneratedRows(rowLabel, rowCount, seatCount, seatPrefix, rowIds, seatIds);
      && |rows| == rowCount
      && forall r :: 0 <= r < rowCount ==>
           && rows[r].id == rowIds(r)
           && (rowCount == 1 ==> rows[r].caption == Trim(rowLabel))
           && (rowCount > 1 ==> rows[r].caption == Trim(rowLabel) + " " + NatToString(r + 1))
           && |rows[r].seats| == seatCount
           && forall i :: 0 <= i < seatCount ==>
                var seat := rows[r].seats[i];
                && seat.id == seatIds(r, i)
                && seat.x == 30 * i && seat.y == 0 && !seat.occupied
                && (!AllWhitespace(seatPrefix) ==> seat.caption == Trim(seatPrefix) + NatToString(i + 1))
                && (AllWhitespace(seatPrefix) ==> seat.caption == rows[r].caption + NatToString(i + 1))
  {
    TrimEmptyIffWhitespace(seatPrefix);
  }

  lemma PrefixCancel(x: string, a: string, b: string)
    requires x + a == x + b
    ensures a == b
  {
    assert a == (x + a)[|x|..];
    assert b == (x + b)[|x|..];
  }

  /** Within one generated row no two seats share a label. */
  lemma GeneratedSeatLabelsDistinct(r: nat, seatCount: nat, seatPrefix: string, rowLabelFinal: string,
                                    seatIds: (nat, nat) -> string, i: nat, j: nat)
    requires i < seatCount && j < seatCount && i != j
    ensures var seats := BuildSeats(r, seatCount, seatPrefix, rowLabelFinal, seatIds);
      seats[i].caption != seats[j].caption
  {
    SeatLabelsDistinct(seatPrefix, rowLabelFinal, i, j);
  }

  lemma SeatLabelsDistinct(seatPrefix: string, rowLabelFinal: string, i: nat, j: nat)
    requires i != j
    ensures SeatLabel(seatPrefix, rowLabelFinal, i) != SeatLabel(seatPrefix, rowLabelFinal, j)
  {
    var x := if Trim(seatPrefix) != [] then Trim(seatPrefix) else rowLabelFinal;
    var a, b := NatToString(i + 1), NatToString(j + 1);
    assert SeatLabel(seatPrefix, rowLabelFinal, i) == x + a;
    assert SeatLabel(seatPrefix, rowLabelFinal, j) == x + b;
    NatToStringInjective(i + 1, j + 1);
    if x + a == x + b {
      PrefixCancel(x, a, b);
    }
  }

  /** When several rows are generated, no two of them share a label. */
  lemma GeneratedRowLabelsDistinct(rowLabel: string, rowCount: nat, r: nat, q: nat)
    requires rowCount > 1 && r != q
    ensures RowLabel(rowLabel, rowCount, r) != RowLabel(rowLabel, rowCount, q)
  {
    var x := Trim(rowLabel) + " ";
    NatToStringInjective(r + 1, q + 1);
    assert RowLabel(rowLabel, rowCount, r) == x + NatToString(r + 1);
    assert RowLabel(rowLabel, rowCount, q) == x + NatToString(q + 1);
    if x + NatToString(r + 1) == x + NatToString(q + 1) {
      PrefixCancel(x, NatToString(r + 1), NatToString(q + 1));
    }
  }

  lemma ExampleRowLabels()
    ensures RowLabel("A", 3, 0) == "A 1" && RowLabel("A", 3, 1) == "A 2" && RowLabel("A", 3, 2) == "A 3"
  {
    assert Trim("A") == "A";
    assert NatToString(1) == "1" && NatToString(2) == "2" && NatToString(3) == "3";
    assert RowLabel("A", 3, 0) == Trim("A") + " " + NatToString(1);
    assert RowLabel("A", 3, 1) == Trim("A") + " " + NatToString(2);
    assert RowLabel("A", 3, 2) == Trim("A") + " " + NatToString(3);
  }

  lemma ExampleSeatLabels()
    ensures SeatLabel("", "A 1", 0) == "A 11" && SeatLabel("", "A 1", 1) == "A 12"
    ensures SeatLabel("", "A 1", 2) == "A 13" && SeatLabel("", "A 1", 3) == "A 14"
    ensures SeatLabel("", "A 1", 4) == "A 15"
  {
    assert Trim("") == "";
    assert NatToString(1) == "1" && NatToString(2) == "2" && NatToString(3) == "3";
    assert NatToString(4) == "4" && NatToString(5) == "5";
    assert SeatLabel("", "A 1", 0) == "A 1" + NatToString(1);
    assert SeatLabel("", "A 1", 1) == "A 1" + NatToString(2);
    assert SeatLabel("", "A 1", 2) == "A 1" + NatToString(3);
    assert SeatLabel("", "A 1", 3) == "A 1" + NatToString(4);
    assert SeatLabel("", "A 1", 4) == "A 1" + NatToString(5);
  }

  /** The labels of the worked example: label "A", three rows of five seats,
      no seat prefix gives rows "A 1", "A 2", "A 3", and row "A 1" holds seats
      "A 11" … "A 15". */
  lemma ThreeRowsOfFiveLabels(rowIds: nat -> string, seatIds: (nat, nat) -> string)
    ensures var rows := GeneratedRows("A", 3, 5, "", rowIds, seatIds);
      && |rows| == 3
      && rows[0].caption == "A 1" && rows[1].caption == "A 2" && rows[2].caption == "A 3"
      && |rows[0].seats| == 5
      && rows[0].seats[0].caption == "A 11" && rows[0].seats[1].caption == "A 12"
      && rows[0].seats[2].caption == "A 13" && rows[0].seats[3].caption == "A 14"
      && rows[0].seats[4].caption == "A 15"
  {
    ExampleRowLabels();
    ExampleSeatLabels();
    var rows := GeneratedRows("A", 3, 5, "", rowIds, seatIds);
    assert rows[0] == BuildRow(0, "A", 3, 5, "", rowIds, seatIds);
    assert rows[1] == BuildRow(1, "A", 3, 5, "", rowIds, seatIds);
    assert rows[2] == BuildRow(2, "A", 3, 5, "", rowIds, seatIds);
    var seats := BuildSeats(0, 5, "", "A 1", seatIds);
    assert rows[0].seats == seats;
    forall i | 0 <= i < 5 ensures seats[i].caption == SeatLabel("", "A 1", i) {
    }
  }

  /** Rows appended to the only section of a map, which had none, become
      exactly that section's rows. */
  lemma AppendToOnlySection(m: MapData, section: Section, rows: seq<Row>)
    requires m.sections == [section] && section.rows == []
    ensures AddRows(m, section.id, rows).sections == [section.(rows := rows)]
  {
    AddRowsAppends(m, section.id, rows);
    var r := AddRows(m, section.id, rows);
    assert r.sections[0] == section.(rows := section.rows + rows);
    assert section.rows + rows == rows;
  }

  /** The worked example on the store's tree: on a fresh map with one section
      "A", the generated rows become that section's rows, in order. */
  lemma ThreeRowsOfFiveExample(mapId: string, sectionId: string,
                               rowIds: nat -> string, seatIds: (nat, nat) -> string)
    ensures var section := Section(sectionId, "A", "#3b82f6", [], Point(100, 100), 0);
      var rows := GeneratedRows("A", 3, 5, "", rowIds, seatIds);
      var m := AddRows(AddSection(InitialMapData(mapId), section), sectionId, rows);
      && |m.sections| == 1
      && m.sections[0] == section.(rows := rows)
      && m.sections[0].rows[0].caption == "A 1" && m.sections[0].rows[2].caption == "A 3"
      && m.sections[0].rows[0].seats[4].caption == "A 15"
  {
    var section := Section(sectionId, "A", "#3b82f6", [], Point(100, 100), 0);
    var m0 := AddSection(InitialMapData(mapId), section);
    var rows := GeneratedRows("A", 3, 5, "", rowIds, seatIds);
    assert m0.sections == [section];
    AppendToOnlySection(m0, section, rows);
    ThreeRowsOfFiveLabels(rowIds, seatIds);
  }

  /** `handleCreate`. On a failed guard nothing is added; otherwise exactly the
      `rowCount` generated rows are appended, in loop order, through one
      `addRow` per pass. The selection is never touched. */
  method HandleCreate(store: Store, sectionId: string, rowLabel: string, rowCount: int,
                      seatCount: int, seatPrefix: string,
                      rowIds: nat -> string, seatIds: (nat, nat) -> string)
    returns (outcome: CreateOutcome)
    modifies store
    ensures outcome == Validate(rowLabel, rowCount, seatCount)
    ensures outcome != Created ==> store.mapData == old(store.mapData)
    ensures outcome == Created ==>
      store.mapData == AddRows(old(store.mapData), sectionId,
                               GeneratedRows(rowLabel, rowCount, seatCount, seatPrefix, rowIds, seatIds))
    ensures store.CurrentSelection() == old(store.CurrentSelection())
  {
    outcome := Validate(rowLabel, rowCount, seatCount);
    if outcome != Created {
      return;
    }
    ghost var rows := GeneratedRows(rowLabel, rowCount, seatCount, seatPrefix, rowIds, seatIds);
    var r := 0;
    while r < rowCount
      invariant 0 <= r <= rowCount
      invariant store.mapData == AddRows(old(store.mapData), sectionId, rows[..r])
      invariant store.CurrentSelection() == old(store.CurrentSelection())
    {
      var rowLabelFinal := RowLabel(rowLabel, rowCount, r);
      var seats := BuildSeats(r, seatCount, seatPrefix, rowLabelFinal, seatIds);
      store.AddRow(sectionId, Row(rowIds(r), rowLabelFinal, seats));
      assert rows[r] == Row(rowIds(r), rowLabelFinal, seats);
      assert rows[..r + 1][..r] == rows[..r];
      r := r + 1;
    }
    assert rows[..rowCount] == rows;
  }
}
