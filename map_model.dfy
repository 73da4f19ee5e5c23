/** The seat-map tree of `src/store/mapStore.ts` and the pure part of every
    store action: each action computes a new MapData from the old one with
    spreads, `.map`, `.filter` and `includes`, never touching the old value. */
module MapModel {
  import opened Common

  // ---------------------------------------------------------------------
  // Data model

  // The source's `label` fields are called `caption` here (`label` is a Dafny keyword).

  datatype Seat = Seat(id: string, caption: string, x: int, y: int, occupied: bool)

  datatype Row = Row(id: string, caption: string, seats: seq<Seat>)

  /** `rotation` is in degrees; the actions below keep it in {0, 90, 180, 270}
      when it starts there. */
  datatype Section = Section(
    id: string,
    caption: string,
    color: string,
    rows: seq<Row>,
    position: Point,
    rotation: int)

  datatype MapData = MapData(id: string, name: string, sections: seq<Section>)

  /** `Partial<Seat>`, `Partial<Row>`, `Partial<Section>`: each field either
      absent (None) or a replacement value. The id is a field like any other. */
  datatype SeatPatch = SeatPatch(
    id: Option<string>, caption: Option<string>, x: Option<int>, y: Option<int>,
    occupied: Option<bool>)

  datatype RowPatch = RowPatch(id: Option<string>, caption: Option<string>, seats: Option<seq<Seat>>)

  datatype SectionPatch = SectionPatch(
    id: Option<string>, caption: Option<string>, color: Option<string>,
    rows: Option<seq<Row>>, position: Option<Point>, rotation: Option<int>)

  const DefaultMapName: string := "Nuevo Mapa"

  /** `initialMapData`, and the value `resetMap` installs, with the id a fresh
      one supplied by the caller. */
  function InitialMapData(freshId: string): MapData {
    MapData(freshId, DefaultMapName, [])
  }

  // ---------------------------------------------------------------------
  // `{ ...value, ...updates }`

  function Pick<T>(current: T, update: Option<T>): T {
    if update.Some? then update.value else current
  }

  function MergeSeat(s: Seat, p: SeatPatch): Seat {
    Seat(Pick(s.id, p.id), Pick(s.caption, p.caption), Pick(s.x, p.x), Pick(s.y, p.y),
         Pick(s.occupied, p.occupied))
  }

  function MergeRow(r: Row, p: RowPatch): Row {
    Row(Pick(r.id, p.id), Pick(r.caption, p.caption), Pick(r.seats, p.seats))
  }

  function MergeSection(s: Section, p: SectionPatch): Section {
    Section(Pick(s.id, p.id), Pick(s.caption, p.caption), Pick(s.color, p.color),
            Pick(s.rows, p.rows), Pick(s.position, p.position), Pick(s.rotation, p.rotation))
  }

  /** The patch a section drag sends: `{ position }` and nothing else. */
  function PositionPatch(position: Point): SectionPatch {
    SectionPatch(None, None, None, None, Some(position), None)
  }

  /** A merge changes exactly the fields the patch names, and merging the same
      patch again changes nothing more. */
  lemma MergeSectionSpec(s: Section, p: SectionPatch)
    ensures var r := MergeSection(s, p);
      && (p.id.None? ==> r.id == s.id) && (p.id.Some? ==> r.id == p.id.value)
      && (p.caption.None? ==> r.caption == s.caption) && (p.caption.Some? ==> r.caption == p.caption.value)
      && (p.color.None? ==> r.color == s.color) && (p.color.Some? ==> r.color == p.color.value)
      && (p.rows.None? ==> r.rows == s.rows) && (p.rows.Some? ==> r.rows == p.rows.value)
      && (p.position.None? ==> r.position == s.position)
      && (p.position.Some? ==> r.position == p.position.value)
      && (p.rotation.None? ==> r.rotation == s.rotation)
      && (p.rotation.Some? ==> r.rotation == p.rotation.value)
      && MergeSection(r, p) == r
  {
  }

  // ---------------------------------------------------------------------
  // Rotation

  /** JavaScript's `a % b` for a positive divisor: the remainder truncated
      toward zero, so it takes the sign of `a`. */
  function JsRem(a: int, b: int): (r: int)
    requires b > 0
    ensures a >= 0 ==> 0 <= r < b
    ensures a < 0 ==> -b < r <= 0
    ensures a == b * (if a >= 0 then a / b else -((-a) / b)) + r
  {
    if a >= 0 then a % b else -((-a) % b)
  }

  /** `(s.rotation + 90) % 360`. */
  function NextRotation(rotation: int): int {
    JsRem(rotation + 90, 360)
  }

  // ---------------------------------------------------------------------
  // Actions on the tree

  /** `setMapName`. */
  function SetMapName(m: MapData, name: string): MapData {
    m.(name := name)
  }

  /** `addSection`: append to the section list. */
  function AddSection(m: MapData, s: Section): MapData {
    m.(sections := m.sections + [s])
  }

  /** `updateSection`: merge the patch into every section with the id. */
  function UpdateSection(m: MapData, sectionId: string, p: SectionPatch): MapData {
    m.(sections := MapWhere(m.sections, (s: Section) => s.id == sectionId,
                            (s: Section) => MergeSection(s, p)))
  }

  /** `deleteSection`: keep the sections whose id differs. */
  function DeleteSection(m: MapData, sectionId: string): MapData {
    m.(sections := Filter(m.sections, (s: Section) => s.id != sectionId))
  }

  /** `rotateSection`: a quarter turn for every section with the id. */
  function RotateSection(m: MapData, sectionId: string): MapData {
    m.(sections := MapWhere(m.sections, (s: Section) => s.id == sectionId,
                            (s: Section) => s.(rotation := NextRotation(s.rotation))))
  }

  /** `addRow`: append the row in every section with the id. */
  function AddRow(m: MapData, sectionId: string, row: Row): MapData {
    m.(sections := MapWhere(m.sections, (s: Section) => s.id == sectionId,
                            (s: Section) => s.(rows := s.rows + [row])))
  }

  /** The rows of one section after `updateRow`. */
  function RowsUpdated(rows: seq<Row>, rowId: string, p: RowPatch): seq<Row> {
    MapWhere(rows, (r: Row) => r.id == rowId, (r: Row) => MergeRow(r, p))
  }

  /** `updateRow`. */
  function UpdateRow(m: MapData, sectionId: string, rowId: string, p: RowPatch): MapData {
    m.(sections := MapWhere(m.sections, (s: Section) => s.id == sectionId,
                            (s: Section) => s.(rows := RowsUpdated(s.rows, rowId, p))))
  }

  /** `deleteRow`: filter the rows of every section with the id. */
  function DeleteRow(m: MapData, sectionId: string, rowId: string): MapData {
    m.(sections := MapWhere(m.sections, (s: Section) => s.id == sectionId,
                            (s: Section) => s.(rows := Filter(s.rows, (r: Row) => r.id != rowId))))
  }

  /** The seats of one row after `updateSeat`. */
  function SeatsUpdated(seats: seq<Seat>, seatId: string, p: SeatPatch): seq<Seat> {
    MapWhere(seats, (x: Seat) => x.id == seatId, (x: Seat) => MergeSeat(x, p))
  }

  /** The rows of one section after `updateSeat`. */
  function RowsWithSeatUpdated(rows: seq<Row>, rowId: string, seatId: string, p: SeatPatch): seq<Row> {
    MapWhere(rows, (r: Row) => r.id == rowId,
             (r: Row) => r.(seats := SeatsUpdated(r.seats, seatId, p)))
  }

  /** `updateSeat`. */
  function UpdateSeat(m: MapData, sectionId: string, rowId: string, seatId: string, p: SeatPatch): MapData {
    m.(sections := MapWhere(m.sections, (s: Section) => s.id == sectionId,
                            (s: Section) => s.(rows := RowsWithSeatUpdated(s.rows, rowId, seatId, p))))
  }

  function FlipOccupied(x: Seat): Seat {
    x.(occupied := !x.occupied)
  }

  /** The seats of one row after `toggleSeatOccupancy`. */
  function SeatsToggled(seats: seq<Seat>, seatId: string): seq<Seat> {
    MapWhere(seats, (x: Seat) => x.id == seatId, FlipOccupied)
  }

  /** The rows of one section after `toggleSeatOccupancy`. */
  function RowsWithSeatToggled(rows: seq<Row>, rowId: string, seatId: string): seq<Row> {
    MapWhere(rows, (r: Row) => r.id == rowId, (r: Row) => r.(seats := SeatsToggled(r.seats, seatId)))
  }

  /** `toggleSeatOccupancy`. */
  function ToggleSeatOccupancy(m: MapData, sectionId: string, rowId: string, seatId: string): MapData {
    m.(sections := MapWhere(m.sections, (s: Section) => s.id == sectionId,
                            (s: Section) => s.(rows := RowsWithSeatToggled(s.rows, rowId, seatId))))
  }

  // ---------------------------------------------------------------------
  // Selection

  /** `selected === id ? null : selected`: a selection naming the deleted id
      is cleared, any other is kept. */
  function Deselect(selected: Option<string>, id: string): (r: Option<string>)
    ensures r == None <==> selected == None || selected == Some(id)
    ensures r != None ==> r == selected
  {
    if selected == Some(id) then None else selected
  }

  /** `toggleSeatSelection`: drop every occurrence of the id if it is there,
      append it otherwise. */
  function ToggleSeatId(ids: seq<string>, seatId: string): (r: seq<string>)
    ensures seatId in r <==> seatId !in ids
    ensures forall k :: 0 <= k < |ids| && ids[k] != seatId ==> ids[k] in r
    ensures forall k :: 0 <= k < |r| && r[k] != seatId ==> r[k] in ids
    ensures seatId !in ids ==> |r| == |ids| + 1 && r[..|ids|] == ids && r[|ids|] == seatId
  {
    if seatId in ids then Filter(ids, (x: string) => x != seatId) else ids + [seatId]
  }

  // ---------------------------------------------------------------------
  // Properties

  /** Appending a section: one more section, the new one last, the others
      unchanged in place. */
  lemma AddSectionAppends(m: MapData, s: Section)
    ensures var r := AddSection(m, s);
      && r.id == m.id && r.name == m.name
      && |r.sections| == |m.sections| + 1
      && r.sections[|m.sections|] == s
      && r.sections[..|m.sections|] == m.sections
  {
  }

  /** Appending a row: every section with the id gains the row at the end of
      its rows and keeps everything else; every other section is unchanged. */
  lemma AddRowAppends(m: MapData, sectionId: string, row: Row)
    ensures var r := AddRow(m, sectionId, row);
      && r.id == m.id && r.name == m.name && |r.sections| == |m.sections|
      && forall i :: 0 <= i < |m.sections| ==>
           var s, t := m.sections[i], r.sections[i];
           if s.id == sectionId then
             && t == s.(rows := t.rows)
             && |t.rows| == |s.rows| + 1 && t.rows[|s.rows|] == row && t.rows[..|s.rows|] == s.rows
           else t == s
  {
  }

  /** Updating a section whose id no section has changes nothing; otherwise
      the sections keep their number and order, the matching ones get the
      merge and the others are unchanged. */
  lemma UpdateSectionFrame(m: MapData, sectionId: string, p: SectionPatch)
    ensures var r := UpdateSection(m, sectionId, p);
      && r.id == m.id && r.name == m.name && |r.sections| == |m.sections|
      && (forall i :: 0 <= i < |m.sections| ==>
            r.sections[i] == if m.sections[i].id == sectionId then MergeSection(m.sections[i], p)
                             else m.sections[i])
      && ((forall s :: s in m.sections ==> s.id != sectionId) ==> r == m)
  {
    var r := UpdateSection(m, sectionId, p);
    if forall s :: s in m.sections ==> s.id != sectionId {
      assert r.sections == m.sections;
    }
  }

  /** Updating a row: only rows with the id inside sections with the id get
      the merge; every other section and row is unchanged, and nothing changes
      when no such row exists. */
  lemma UpdateRowFrame(m: MapData, sectionId: string, rowId: string, p: RowPatch)
    ensures var r := UpdateRow(m, sectionId, rowId, p);
      && r.id == m.id && r.name == m.name && |r.sections| == |m.sections|
      && (forall i :: 0 <= i < |m.sections| ==>
            var s, t := m.sections[i], r.sections[i];
            && t == s.(rows := t.rows) && |t.rows| == |s.rows|
            && forall j :: 0 <= j < |s.rows| ==>
                 t.rows[j] == if s.id == sectionId && s.rows[j].id == rowId
                              then MergeRow(s.rows[j], p) else s.rows[j])
      && (NoRow(m, sectionId, rowId) ==> r == m)
  {
    var r := UpdateRow(m, sectionId, rowId, p);
    if NoRow(m, sectionId, rowId) {
      forall i | 0 <= i < |m.sections| ensures r.sections[i] == m.sections[i] {
        var s := m.sections[i];
        if s.id == sectionId {
          assert RowsUpdated(s.rows, rowId, p) == s.rows;
        }
      }
      assert r.sections == m.sections;
    }
  }

  /** No row with `rowId` in any section with `sectionId`. */
  ghost predicate NoRow(m: MapData, sectionId: string, rowId: string) {
    forall i, j :: 0 <= i < |m.sections| && 0 <= j < |m.sections[i].rows| ==>
      m.sections[i].id == sectionId ==> m.sections[i].rows[j].id != rowId
  }

  /** No seat with `seatId` in a row with `rowId` in a section with `sectionId`. */
  ghost predicate NoSeat(m: MapData, sectionId: string, rowId: string, seatId: string) {
    forall i, j, k :: 0 <= i < |m.sections| && 0 <= j < |m.sections[i].rows|
                      && 0 <= k < |m.sections[i].rows[j].seats| ==>
      m.sections[i].id == sectionId && m.sections[i].rows[j].id == rowId ==>
      m.sections[i].rows[j].seats[k].id != seatId
  }

  /** Updating a seat: only the seats on the path sectionId → rowId → seatId
      get the merge; all sections, rows and seats keep their number and order,
      everything off the path is unchanged, and nothing changes when the path
      leads nowhere. */
  lemma UpdateSeatFrame(m: MapData, sectionId: string, rowId: string, seatId: string, p: SeatPatch)
    ensures var r := UpdateSeat(m, sectionId, rowId, seatId, p);
      && r.id == m.id && r.name == m.name && |r.sections| == |m.sections|
      && (forall i :: 0 <= i < |m.sections| ==>
            var s, t := m.sections[i], r.sections[i];
            && t == s.(rows := t.rows) && |t.rows| == |s.rows|
            && forall j :: 0 <= j < |s.rows| ==>
                 && t.rows[j] == s.rows[j].(seats := t.rows[j].seats)
                 && |t.rows[j].seats| == |s.rows[j].seats|
                 && forall k :: 0 <= k < |s.rows[j].seats| ==>
                      t.rows[j].seats[k] ==
                        if s.id == sectionId && s.rows[j].id == rowId && s.rows[j].seats[k].id == seatId
                        then MergeSeat(s.rows[j].seats[k], p) else s.rows[j].seats[k])
      && (NoSeat(m, sectionId, rowId, seatId) ==> r == m)
  {
    var r := UpdateSeat(m, sectionId, rowId, seatId, p);
    if NoSeat(m, sectionId, rowId, seatId) {
      forall i | 0 <= i < |m.sections| ensures r.sections[i] == m.sections[i] {
        var s := m.sections[i];
        if s.id == sectionId {
          forall j | 0 <= j < |s.rows| ensures r.sections[i].rows[j] == s.rows[j] {
            if s.rows[j].id == rowId {
              assert SeatsUpdated(s.rows[j].seats, seatId, p) == s.rows[j].seats;
            }
          }
          assert r.sections[i].rows == s.rows;
        }
      }
      assert r.sections == m.sections;
    }
  }

  /** One toggle flips `occupied` of exactly the seats on the path and keeps
      every other field and every other seat, row and section. */
  lemma ToggleSeatOccupancyFlips(m: MapData, sectionId: string, rowId: string, seatId: string)
    ensures var r := ToggleSeatOccupancy(m, sectionId, rowId, seatId);
      && r.id == m.id && r.name == m.name && |r.sections| == |m.sections|
      && (forall i :: 0 <= i < |m.sections| ==>
            var s, t := m.sections[i], r.sections[i];
            && t == s.(rows := t.rows) && |t.rows| == |s.rows|
            && forall j :: 0 <= j < |s.rows| ==>
                 && t.rows[j] == s.rows[j].(seats := t.rows[j].seats)
                 && |t.rows[j].seats| == |s.rows[j].seats|
                 && forall k :: 0 <= k < |s.rows[j].seats| ==>
                      var a, b := s.rows[j].seats[k], t.rows[j].seats[k];
                      && b == a.(occupied := b.occupied)
                      && b.occupied == if s.id == sectionId && s.rows[j].id == rowId && a.id == seatId
                                       then !a.occupied else a.occupied)
  {
  }

  lemma SeatsToggledTwice(seats: seq<Seat>, seatId: string)
    ensures SeatsToggled(SeatsToggled(seats, seatId), seatId) == seats
  {
  }

  lemma RowsWithSeatToggledTwice(rows: seq<Row>, rowId: string, seatId: string)
    ensures RowsWithSeatToggled(RowsWithSeatToggled(rows, rowId, seatId), rowId, seatId) == rows
  {
    var once := RowsWithSeatToggled(rows, rowId, seatId);
    var twice := RowsWithSeatToggled(once, rowId, seatId);
    forall j | 0 <= j < |rows| ensures twice[j] == rows[j] {
      if rows[j].id == rowId {
        SeatsToggledTwice(rows[j].seats, seatId);
      }
    }
  }

  /** Toggling the same seat twice gives back the original tree. */
  lemma ToggleSeatOccupancyTwice(m: MapData, sectionId: string, rowId: string, seatId: string)
    ensures ToggleSeatOccupancy(ToggleSeatOccupancy(m, sectionId, rowId, seatId), sectionId, rowId, seatId) == m
  {
    var once := ToggleSeatOccupancy(m, sectionId, rowId, seatId);
    var twice := ToggleSeatOccupancy(once, sectionId, rowId, seatId);
    forall i | 0 <= i < |m.sections| ensures twice.sections[i] == m.sections[i] {
      if m.sections[i].id == sectionId {
        RowsWithSeatToggledTwice(m.sections[i].rows, rowId, seatId);
      }
    }
    assert twice.sections == m.sections;
  }

  /** From a rotation in [0, 360) a quarter turn stays in [0, 360) and goes
      0 → 90 → 180 → 270 → 0; four quarter turns give the start back. */
  lemma NextRotationCycle(rotation: int)
    requires 0 <= rotation < 360
    ensures 0 <= NextRotation(rotation) < 360
    ensures NextRotation(rotation) == if rotation < 270 then rotation + 90 else rotation - 270
    ensures NextRotation(NextRotation(NextRotation(NextRotation(rotation)))) == rotation
  {
  }

  /** Any non-negative rotation is brought into [0, 360) by one quarter turn;
      a negative one (possible only through `updateSection` or `importMap`)
      stays within (-360, 360), as JavaScript's `%` keeps the sign. */
  lemma NextRotationRange(rotation: int)
    ensures rotation >= -90 ==> 0 <= NextRotation(rotation) < 360
    ensures -360 < NextRotation(rotation) < 360
    ensures (rotation + 90 - NextRotation(rotation)) % 360 == 0
  {
  }

  /** Four `rotateSection` calls with the same id give back the tree, as long
      as the rotated sections start in [0, 360). */
  lemma RotateSectionFourTimes(m: MapData, sectionId: string)
    requires forall s :: s in m.sections && s.id == sectionId ==> 0 <= s.rotation < 360
    ensures RotateSection(RotateSection(RotateSection(RotateSection(m, sectionId), sectionId), sectionId), sectionId) == m
  {
    var m1 := RotateSection(m, sectionId);
    var m2 := RotateSection(m1, sectionId);
    var m3 := RotateSection(m2, sectionId);
    var m4 := RotateSection(m3, sectionId);
    forall i | 0 <= i < |m.sections| ensures m4.sections[i] == m.sections[i] {
      var s := m.sections[i];
      if s.id == sectionId {
        NextRotationCycle(s.rotation);
        assert m4.sections[i].rotation == s.rotation;
      }
    }
    assert m4.sections == m.sections;
  }

  /** Deleting a section removes every section with the id, keeps all others
      in their original order, and changes nothing else. */
  lemma DeleteSectionRemoves(m: MapData, sectionId: string)
    ensures var r := DeleteSection(m, sectionId);
      && r.id == m.id && r.name == m.name
      && (forall s :: s in r.sections ==> s.id != sectionId)
      && (forall s :: s in m.sections && s.id != sectionId ==> s in r.sections)
      && |r.sections| <= |m.sections|
      && ((forall s :: s in m.sections ==> s.id != sectionId) ==> r == m)
  {
    var r := DeleteSection(m, sectionId);
    forall s | s in r.sections ensures s.id != sectionId {
      var k :| 0 <= k < |r.sections| && r.sections[k] == s;
    }
    forall s | s in m.sections && s.id != sectionId ensures s in r.sections {
      var k :| 0 <= k < |m.sections| && m.sections[k] == s;
    }
  }

  /** Deleting is order preserving: when the sections are a front part
      followed by a back part, the survivors are the front's survivors
      followed by the back's. */
  lemma DeleteSectionOrder(m: MapData, front: seq<Section>, back: seq<Section>, sectionId: string)
    requires m.sections == front + back
    ensures DeleteSection(m, sectionId).sections
         == DeleteSection(m.(sections := front), sectionId).sections
          + DeleteSection(m.(sections := back), sectionId).sections
  {
    FilterAppend(front, back, (s: Section) => s.id != sectionId);
  }

  /** Deleting a row filters the rows of the sections with `sectionId` only:
      afterwards none of them holds a row with `rowId`, every other row is
      still there, and every other section is unchanged. */
  lemma DeleteRowRemoves(m: MapData, sectionId: string, rowId: string)
    ensures var r := DeleteRow(m, sectionId, rowId);
      && r.id == m.id && r.name == m.name && |r.sections| == |m.sections|
      && forall i :: 0 <= i < |m.sections| ==>
           var s, t := m.sections[i], r.sections[i];
           if s.id == sectionId then
             && t == s.(rows := t.rows)
             && (forall row :: row in t.rows ==> row.id != rowId)
             && (forall row :: row in s.rows && row.id != rowId ==> row in t.rows)
           else t == s
  {
    var r := DeleteRow(m, sectionId, rowId);
    forall i | 0 <= i < |m.sections| && m.sections[i].id == sectionId
      ensures forall row :: row in r.sections[i].rows ==> row.id != rowId
      ensures forall row :: row in m.sections[i].rows && row.id != rowId ==> row in r.sections[i].rows
    {
      var s, t := m.sections[i], r.sections[i];
      forall row | row in t.rows ensures row.id != rowId {
        var k :| 0 <= k < |t.rows| && t.rows[k] == row;
      }
      forall row | row in s.rows && row.id != rowId ensures row in t.rows {
        var k :| 0 <= k < |s.rows| && s.rows[k] == row;
      }
    }
  }

  /** Toggling a seat id flips its membership and leaves the other ids, in
      their order, as they were. */
  lemma ToggleSeatIdKeepsOthers(ids: seq<string>, seatId: string)
    ensures Filter(ToggleSeatId(ids, seatId), (x: string) => x != seatId)
         == Filter(ids, (x: string) => x != seatId)
  {
    var keep := (x: string) => x != seatId;
    if seatId !in ids {
      FilterAppend(ids, [seatId], keep);
      assert Filter([seatId], keep) == [];
    } else {
      assert ToggleSeatId(ids, seatId) == Filter(ids, keep);
    }
  }

  /** Selecting a seat that was not selected and toggling it again gives back
      the original list. */
  lemma ToggleSeatIdTwice(ids: seq<string>, seatId: string)
    requires seatId !in ids
    ensures ToggleSeatId(ToggleSeatId(ids, seatId), seatId) == ids
  {
    var keep := (x: string) => x != seatId;
    FilterAppend(ids, [seatId], keep);
    assert Filter([seatId], keep) == [];
  }
}
