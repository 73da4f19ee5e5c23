/** `src/components/MapEditor/SectionCard.tsx`: the per-section drag state
    (`isDragging`, `dragStart`), its mouse handlers, the rotate button, and
    the occupied/total seat count shown in the card's header. */
module SectionCard {
  import opened Common
  import opened MapModel
  import opened MapStore

  /** `e.button` of the primary (usually left) mouse button. */
  const PrimaryButton: int := 0

  /** `dragStart`: where the pointer is relative to the section at the press. */
  function DragAnchor(pointer: Point, position: Point): Point {
    Sub(pointer, position)
  }

  /** The position a move sends: pointer minus `dragStart`, in screen pixels
      (the zoom scale plays no part). */
  function DraggedPosition(pointer: Point, anchor: Point): Point {
    Sub(pointer, anchor)
  }

  /** During a drag the section follows the pointer one for one: moving the
      pointer by `delta` from the press point moves the section by `delta`,
      so moving back to the press point gives the original position. */
  lemma DragFollowsPointer(press: Point, position: Point, delta: Point)
    ensures DraggedPosition(Add(press, delta), DragAnchor(press, position)) == Add(position, delta)
    ensures DraggedPosition(press, DragAnchor(press, position)) == position
  {
  }

  /** Pressing on a section and moving back to the press point sends an
      update that leaves the tree as it was, provided every section with that
      id sits where the pressed one does (true when ids are unique). */
  lemma DragBackRestores(m: MapData, section: Section, pointer: Point)
    requires forall t :: t in m.sections && t.id == section.id ==> t.position == section.position
    ensures UpdateSection(m, section.id,
                          PositionPatch(DraggedPosition(pointer, DragAnchor(pointer, section.position)))) == m
  {
    var r := UpdateSection(m, section.id, PositionPatch(section.position));
    forall i | 0 <= i < |m.sections| ensures r.sections[i] == m.sections[i] {
      assert m.sections[i] in m.sections;
    }
    assert r.sections == m.sections;
  }

  /** `row.seats.filter(seat => seat.occupied).length` summed over the rows. */
  function OccupiedSeats(rows: seq<Row>): nat {
    if rows == [] then 0
    else |Filter(rows[0].seats, (x: Seat) => x.occupied)| + OccupiedSeats(rows[1..])
  }

  /** `row.seats.length` summed over the rows. */
  function TotalSeats(rows: seq<Row>): nat {
    if rows == [] then 0 else |rows[0].seats| + TotalSeats(rows[1..])
  }

  /** The header never shows more occupied seats than seats. */
  lemma {:induction false} OccupiedAtMostTotal(rows: seq<Row>)
    ensures OccupiedSeats(rows) <= TotalSeats(rows)
  {
    if rows != [] {
      OccupiedAtMostTotal(rows[1..]);
    }
  }

  /** Both counts are sums over rows: splitting the rows splits the counts. */
  lemma {:induction false} SeatCountsAdd(a: seq<Row>, b: seq<Row>)
    ensures OccupiedSeats(a + b) == OccupiedSeats(a) + OccupiedSeats(b)
    ensures TotalSeats(a + b) == TotalSeats(a) + TotalSeats(b)
  {
    if a == [] {
      assert a + b == b;
    } else {
      assert (a + b)[0] == a[0];
      assert (a + b)[1..] == a[1..] + b;
      SeatCountsAdd(a[1..], b);
    }
  }

  /** The drag state of one mounted card. */
  class Card {
    var isDragging: bool
    var dragStart: Point

    constructor ()
      ensures !isDragging && dragStart == Point(0, 0)
    {
      isDragging := false;
      dragStart := Point(0, 0);
    }

    /** `handleMouseDown`: only the primary button starts a drag; it records
        the anchor and selects the section. Any other button changes nothing. */
    method HandleMouseDown(store: Store, section: Section, button: int, pointer: Point)
      modifies this, store
      ensures button != PrimaryButton ==>
        && isDragging == old(isDragging) && dragStart == old(dragStart)
        && store.mapData == old(store.mapData)
        && store.CurrentSelection() == old(store.CurrentSelection())
      ensures button == PrimaryButton ==>
        && isDragging && dragStart == DragAnchor(pointer, section.position)
        && store.mapData == old(store.mapData)
        && store.selectedSectionId == Some(section.id)
        && store.selectedRowId == old(store.selectedRowId)
        && store.selectedSeatIds == old(store.selectedSeatIds)
    {
      if button != PrimaryButton {
        return;
      }
      isDragging := true;
      dragStart := DragAnchor(pointer, section.position);
      store.SetSelectedSection(Some(section.id));
    }

    /** The document-level `mousemove` listener: while dragging, move the
        section to pointer minus anchor; otherwise no update is sent. */
    method HandleMouseMove(store: Store, section: Section, pointer: Point)
      modifies store
      ensures isDragging ==>
        store.mapData == UpdateSection(old(store.mapData), section.id,
                                       PositionPatch(DraggedPosition(pointer, dragStart)))
      ensures !isDragging ==> store.mapData == old(store.mapData)
      ensures store.CurrentSelection() == old(store.CurrentSelection())
    {
      if isDragging {
        store.UpdateSection(section.id, PositionPatch(DraggedPosition(pointer, dragStart)));
      }
    }

    /** The document-level `mouseup` listener: the drag ends. */
    method HandleMouseUp()
      modifies this
      ensures !isDragging && dragStart == old(dragStart)
    {
      isDragging := false;
    }

    /** `handleRotate`: exactly one `rotateSection` on this section. */
    method HandleRotate(store: Store, section: Section)
      modifies store
      ensures store.mapData == MapModel.RotateSection(old(store.mapData), section.id)
      ensures store.CurrentSelection() == old(store.CurrentSelection())
    {
      store.RotateSection(section.id);
    }
  }
}
