# Seat-map builder: a Dafny model of the editor's core

This project models the core logic of the seat-map editor and proves properties about it. The editor is a React
app in which a venue map is a four-level tree: MapData → Section → Row → Seat. The model covers four pieces of
sequential logic:

- **The map store** (`src/store/mapStore.ts`). It holds the tree and three selection fields.
  - Each store action computes a new tree from the old one. The model writes each of these as a pure function
    (module `MapModel`).
  - The model stores the tree and the selection in a `Store` class. Each of its methods reassigns those fields,
    the way zustand's `set` does (module `MapStore`).
- **The bulk row generator** (`handleCreate` in `src/components/MapEditor/CreateRowDialog.tsx`).
  - It checks three input guards.
  - Then a loop builds `rowCount` rows of `seatCount` seats and appends them through the store's `addRow`
    (module `RowGenerator`).
  - JavaScript's `String.prototype.trim` and the decimal rendering of `r + 1` inside template literals are modelled
    in module `Text`.
- **The section card** (`src/components/MapEditor/SectionCard.tsx`). This is the drag state of one card
  (`isDragging`, `dragStart`), its mouse handlers, the rotate button and the occupied/total seat count
  (module `SectionCard`).
- **The canvas viewport** (`src/components/MapEditor/Canvas.tsx`). This is the clamped zoom `scale` and the pan
  gesture (`pan`, `isPanning`, `startPan`). It appears twice:
  - as a pure event machine, `Step` and `Run`;
  - as a class `Viewport` whose handlers are proved to follow `Step` (module `Canvas`).

Module `Common` holds `Option`, points, and the JavaScript `.map(x => p(x) ? f(x) : x)` and `.filter` used
throughout. Each of these is specified pointwise.

Modelling choices:
- Ids produced by `crypto.randomUUID()` are parameters. The constructor and `ResetMap` take a fresh id, and
  `HandleCreate` takes two id sources indexed by the row number and by (row, seat).
- `Partial<T>` update objects are records of `Option` fields (`SeatPatch`, `RowPatch`, `SectionPatch`). The id can
  be overwritten, just as the source allows.
- The source's `label` fields are called `caption`, because `label` is a reserved word in Dafny.
- Pixel coordinates are `int`, and the zoom scale is `real`.
- Rotation is an `int`. JavaScript's `%` truncates toward zero, and `JsRem` models exactly that, so negative
  rotations behave as they do in the source.

Source behaviours the model keeps:
- `initialMapData` names the map `'Nuevo Mapa'` (src/store/mapStore.ts:63), and `resetMap` reuses that name with a
  fresh id (src/store/mapStore.ts:223).
- `deleteSection` clears only `selectedSectionId` (src/store/mapStore.ts:102). `selectedRowId` and
  `selectedSeatIds` stay as they were, even when they belonged to the deleted section.
- `handleCreate` checks its three guards before any `addRow` call (src/components/MapEditor/CreateRowDialog.tsx:32-45),
  so a rejected input leaves the store untouched.
- A section drag sets the position to pointer minus anchor in screen pixels
  (src/components/MapEditor/SectionCard.tsx:33-37). The canvas zoom `scale` plays no part in it.

## Model

| member | source | states |
|---|---|---|
| Common.MapWhere | src/store/mapStore.ts:90-92 | `xs.map(x => p(x) ? f(x) : x)` keeps the length. Element k becomes `f(xs[k])` exactly when `p(xs[k])`, and is kept otherwise. When nothing matches, the result is the input. |
| Common.Filter | src/store/mapStore.ts:100 | `.filter`: every element kept is from the input and satisfies the predicate. Every input element that satisfies it is kept. When all satisfy it, the result is the input. |
| Common.FilterAppend | src/store/mapStore.ts:100 | Filtering a concatenation is concatenating the filtered parts, so `.filter` keeps the original order. |
| Text.Trim | src/components/MapEditor/CreateRowDialog.tsx:32 | `s.trim()`, the composition of `TrimStart` and `TrimEnd`. Its meaning is stated by those two and by `Text.TrimEmptyIffWhitespace` and `Text.TrimIdempotent`. |
| Text.TrimStart | src/components/MapEditor/CreateRowDialog.tsx:32 | The result is a suffix of the input. It does not start with whitespace, and everything removed is whitespace. |
| Text.TrimEnd | src/components/MapEditor/CreateRowDialog.tsx:32 | The result is a prefix of the input. It does not end with whitespace, and everything removed is whitespace. |
| Text.TrimEmptyIffWhitespace | src/components/MapEditor/CreateRowDialog.tsx:32 | `s.trim()` is empty if and only if `s` consists of whitespace only. This is the truth test behind `!rowLabel.trim()`. |
| Text.TrimIdempotent | src/components/MapEditor/CreateRowDialog.tsx:49-51 | Trimming an already trimmed label changes nothing. |
| Text.NatToString | src/components/MapEditor/CreateRowDialog.tsx:50 | The rendering of `r + 1` is non-empty, made of decimal digits only, and has no leading zero. |
| Text.ParseNatToString | src/components/MapEditor/CreateRowDialog.tsx:50 | Reading the decimal rendering back gives the number. |
| Text.NatToStringInjective | src/components/MapEditor/CreateRowDialog.tsx:56-57 | Distinct numbers have distinct renderings. |
| MapModel.InitialMapData | src/store/mapStore.ts:61-65 | `initialMapData` with the fresh id the caller supplies: name 'Nuevo Mapa', no sections. Stated by `MapStore.Store.constructor` and `MapStore.Store.ResetMap`. |
| MapModel.MergeSeat | src/store/mapStore.ts:164 | `{ ...seat, ...updates }`: each field from the patch when present, otherwise from the seat. Used and characterised through `MapModel.UpdateSeatFrame`. |
| MapModel.MergeRow | src/store/mapStore.ts:133 | `{ ...r, ...updates }`: each field from the patch when present, otherwise from the row. Used and characterised through `MapModel.UpdateRowFrame`. |
| MapModel.MergeSection | src/store/mapStore.ts:91 | `{ ...s, ...updates }` on a section. Its field-by-field meaning is `MapModel.MergeSectionSpec`. |
| MapModel.NextRotation | src/store/mapStore.ts:110 | `(s.rotation + 90) % 360` with JavaScript's `%`. Its behaviour is stated by `MapModel.NextRotationCycle` and `MapModel.NextRotationRange`. |
| MapModel.SetMapName | src/store/mapStore.ts:73-76 | `setMapName`'s new tree: the old one with the name replaced. Installed by `MapStore.Store.SetMapName`. |
| MapModel.AddSection | src/store/mapStore.ts:78-84 | `addSection`'s new tree. Its meaning is `MapModel.AddSectionAppends`. |
| MapModel.UpdateSection | src/store/mapStore.ts:86-94 | `updateSection`'s new tree. Its meaning is `MapModel.UpdateSectionFrame`. |
| MapModel.DeleteSection | src/store/mapStore.ts:96-101 | `deleteSection`'s new tree. Its meaning is `MapModel.DeleteSectionRemoves` and `MapModel.DeleteSectionOrder`. |
| MapModel.RotateSection | src/store/mapStore.ts:105-113 | `rotateSection`'s new tree: `NextRotation` on the sections with the id. Its meaning is `MapModel.RotateSectionFourTimes` with the rotation lemmas. |
| MapModel.AddRow | src/store/mapStore.ts:115-123 | `addRow`'s new tree. Its meaning is `MapModel.AddRowAppends`. |
| MapModel.UpdateRow | src/store/mapStore.ts:125-138 | `updateRow`'s new tree. Its meaning is `MapModel.UpdateRowFrame`. |
| MapModel.DeleteRow | src/store/mapStore.ts:140-147 | `deleteRow`'s new tree. Its meaning is `MapModel.DeleteRowRemoves`. |
| MapModel.UpdateSeat | src/store/mapStore.ts:151-173 | `updateSeat`'s new tree. Its meaning is `MapModel.UpdateSeatFrame`. |
| MapModel.SeatsToggled | src/store/mapStore.ts:187-189 | The innermost `.map` of `toggleSeatOccupancy`. `MapModel.SeatsToggledTwice` states it is its own inverse. |
| MapModel.RowsWithSeatToggled | src/store/mapStore.ts:183-192 | The row-level `.map` of `toggleSeatOccupancy`. `MapModel.RowsWithSeatToggledTwice` states it is its own inverse. |
| MapModel.ToggleSeatOccupancy | src/store/mapStore.ts:175-197 | `toggleSeatOccupancy`'s new tree. Its meaning is `MapModel.ToggleSeatOccupancyFlips` and `MapModel.ToggleSeatOccupancyTwice`. |
| MapModel.MergeSectionSpec | src/store/mapStore.ts:91 | `{ ...s, ...updates }` takes every field the patch names from the patch and every other field from `s`. Merging the same patch again changes nothing more. |
| MapModel.JsRem | src/store/mapStore.ts:110 | JavaScript `%` with a positive divisor: `a` equals `b` times the quotient truncated toward zero plus the result. A non-negative dividend gives a remainder in [0, b), and a negative one gives a remainder in (-b, 0]. |
| MapModel.Deselect | src/store/mapStore.ts:102 | `selected === id ? null : selected`. The result is null exactly when the selection was null or named the id. Otherwise it is the old selection. |
| MapModel.ToggleSeatId | src/store/mapStore.ts:202-207 | The id is in the result exactly when it was not in the list. Every other id is kept, and no other id appears. An absent id is appended once, at the end, after the unchanged old list. |
| MapModel.AddSectionAppends | src/store/mapStore.ts:78-84 | The section list grows by one, the new section is last, the old sections are an unchanged prefix, and the map's id and name stay. |
| MapModel.AddRowAppends | src/store/mapStore.ts:115-123 | Each section with the id gains the row as its last row and keeps everything else. Every other section is unchanged. |
| MapModel.UpdateSectionFrame | src/store/mapStore.ts:86-94 | With an id that matches no section, the tree is unchanged. Otherwise the length and order are kept, matching sections are merged with the patch, and the others are unchanged. |
| MapModel.UpdateRowFrame | src/store/mapStore.ts:125-138 | Only rows with the row id inside sections with the section id are merged, and all lengths and orders are kept. When no such row exists, the tree is unchanged. |
| MapModel.UpdateSeatFrame | src/store/mapStore.ts:151-173 | Only seats on the path section id → row id → seat id are merged, and all lengths and orders are kept. When the path leads nowhere, the tree is unchanged. |
| MapModel.ToggleSeatOccupancyFlips | src/store/mapStore.ts:175-197 | One toggle negates `occupied` of exactly the seats on the path. Every other field, seat, row and section is kept. |
| MapModel.SeatsToggledTwice | src/store/mapStore.ts:187-189 | Toggling the same seat id twice in a seat list gives back the list. |
| MapModel.RowsWithSeatToggledTwice | src/store/mapStore.ts:183-192 | Toggling the same seat twice within a row list gives back the list. |
| MapModel.ToggleSeatOccupancyTwice | src/store/mapStore.ts:175-197 | Applying `toggleSeatOccupancy` twice with the same ids restores the original tree. |
| MapModel.NextRotationCycle | src/store/mapStore.ts:110 | From a rotation in [0, 360), a quarter turn stays in [0, 360) and steps 0 → 90 → 180 → 270 → 0. Four quarter turns return the start. |
| MapModel.NextRotationRange | src/store/mapStore.ts:110 | From any rotation of at least -90, one quarter turn lands in [0, 360). From any rotation at all, it lands in (-360, 360) and is congruent to rotation + 90 modulo 360. |
| MapModel.RotateSectionFourTimes | src/store/mapStore.ts:105-113 | Four `rotateSection` calls with the same id restore the tree, when the rotated sections start in [0, 360). |
| MapModel.DeleteSectionRemoves | src/store/mapStore.ts:96-101 | No section with the id survives. Every other section survives, and the map's id and name are kept. |
| MapModel.DeleteSectionOrder | src/store/mapStore.ts:100 | When the sections are a front part followed by a back part, the survivors are the front's survivors followed by the back's, so deletion keeps the original order. |
| MapModel.DeleteRowRemoves | src/store/mapStore.ts:140-147 | Within sections with the section id, no row with the row id survives and every other row survives. Every other section is unchanged. |
| MapModel.ToggleSeatIdKeepsOthers | src/store/mapStore.ts:202-207 | Removing the toggled id from the result gives the old list without it: the other ids are kept in their order. |
| MapModel.ToggleSeatIdTwice | src/store/mapStore.ts:202-207 | Selecting an unselected seat and toggling it again restores the list. |
| MapStore.Store.constructor | src/store/mapStore.ts:61-71 | The initial store holds an empty map named 'Nuevo Mapa' with the given fresh id, and no selection. |
| MapStore.Store.SetMapName | src/store/mapStore.ts:73-76 | The new tree is the old one renamed. The selection is untouched. |
| MapStore.Store.AddSection | src/store/mapStore.ts:78-84 | The new tree is `MapModel.AddSection` of the old one. The selection is untouched. |
| MapStore.Store.UpdateSection | src/store/mapStore.ts:86-94 | The new tree is `MapModel.UpdateSection` of the old one. The selection is untouched. |
| MapStore.Store.DeleteSection | src/store/mapStore.ts:96-103 | The sections with the id are filtered out. `selectedSectionId` becomes null exactly when it was null or the id. `selectedRowId` and `selectedSeatIds` are untouched. |
| MapStore.Store.RotateSection | src/store/mapStore.ts:105-113 | The new tree is `MapModel.RotateSection` of the old one. The selection is untouched. |
| MapStore.Store.AddRow | src/store/mapStore.ts:115-123 | The new tree is `MapModel.AddRow` of the old one. The selection is untouched. |
| MapStore.Store.UpdateRow | src/store/mapStore.ts:125-138 | The new tree is `MapModel.UpdateRow` of the old one. The selection is untouched. |
| MapStore.Store.DeleteRow | src/store/mapStore.ts:140-149 | The rows are filtered in the matching sections only. `selectedRowId` becomes null exactly when it was null or the row id, even if no section matched. The other selection fields are untouched. |
| MapStore.Store.UpdateSeat | src/store/mapStore.ts:151-173 | The new tree is `MapModel.UpdateSeat` of the old one. The selection is untouched. |
| MapStore.Store.ToggleSeatOccupancy | src/store/mapStore.ts:175-197 | The new tree is `MapModel.ToggleSeatOccupancy` of the old one. The selection is untouched. |
| MapStore.Store.SetSelectedSection | src/store/mapStore.ts:199 | Only `selectedSectionId` changes, to the argument. |
| MapStore.Store.SetSelectedRow | src/store/mapStore.ts:200 | Only `selectedRowId` changes, to the argument. |
| MapStore.Store.ToggleSeatSelection | src/store/mapStore.ts:202-207 | Only `selectedSeatIds` changes, and the seat id's membership in it flips. |
| MapStore.Store.ClearSeatSelection | src/store/mapStore.ts:209 | `selectedSeatIds` becomes empty, and nothing else changes. |
| MapStore.Store.ExportMap | src/store/mapStore.ts:211 | The current tree is returned, and nothing changes. |
| MapStore.Store.ImportMap | src/store/mapStore.ts:213-219 | The given tree is installed as it is, and all three selection fields are cleared. |
| MapStore.Store.ResetMap | src/store/mapStore.ts:221-227 | The store holds an empty map named 'Nuevo Mapa' with a fresh id, and no selection. |
| MapStore.ExportThenImport | src/store/mapStore.ts:211-219 | `importMap(exportMap())` leaves the tree unchanged and clears the selection. |
| RowGenerator.RowLabel | src/components/MapEditor/CreateRowDialog.tsx:49-51 | `rowLabelFinal` of pass r. Its value is stated by `RowGenerator.GeneratedRowsShape` and `RowGenerator.ExampleRowLabels`. |
| RowGenerator.SeatLabel | src/components/MapEditor/CreateRowDialog.tsx:55-57 | The label of seat i. Its value is stated by `RowGenerator.GeneratedRowsShape` and `RowGenerator.ExampleSeatLabels`. |
| RowGenerator.BuildSeats | src/components/MapEditor/CreateRowDialog.tsx:53-61 | The `Array.from` seat builder. The seats' fields are stated by `RowGenerator.GeneratedRowsShape`. |
| RowGenerator.BuildRow | src/components/MapEditor/CreateRowDialog.tsx:63-67 | The row handed to `addRow` on pass r. Stated by `RowGenerator.GeneratedRowsShape`. |
| RowGenerator.GeneratedRows | src/components/MapEditor/CreateRowDialog.tsx:48-68 | The rows one successful create appends, in loop order. Stated by `RowGenerator.GeneratedRowsShape`. |
| RowGenerator.AddRows | src/components/MapEditor/CreateRowDialog.tsx:48-68 | `addRow` once per row, first row first. Its meaning is `RowGenerator.AddRowsAppends`. |
| RowGenerator.Validate | src/components/MapEditor/CreateRowDialog.tsx:32-45 | The three guards, each stated in both directions, in the dialog's order: an all-whitespace label, then a row count outside [1, 50], then a seat count outside [1, 100]. Rows are created exactly when none of them fires. |
| RowGenerator.AddRowsAppends | src/components/MapEditor/CreateRowDialog.tsx:48-68 | Calling `addRow` once per row appends the whole list, in order, to each section with the id. Every other section, the map id and the name stay as they were. |
| RowGenerator.GeneratedRowsShape | src/components/MapEditor/CreateRowDialog.tsx:49-66 | There are `rowCount` rows, and row r is labelled "label r+1", or just the trimmed label when there is a single row. Each row has `seatCount` seats. Seat i is at x = 30·i, y = 0, and is not occupied. Its label is the trimmed prefix plus i+1, or the row label plus i+1 when the prefix is blank. |
| RowGenerator.GeneratedSeatLabelsDistinct | src/components/MapEditor/CreateRowDialog.tsx:55-57 | No two seats of one generated row share a label. |
| RowGenerator.GeneratedRowLabelsDistinct | src/components/MapEditor/CreateRowDialog.tsx:49-51 | When several rows are generated, no two share a label. |
| RowGenerator.ExampleRowLabels | src/components/MapEditor/CreateRowDialog.tsx:49-51 | Label "A" with three rows gives the row labels "A 1", "A 2", "A 3". |
| RowGenerator.ExampleSeatLabels | src/components/MapEditor/CreateRowDialog.tsx:55-57 | With no prefix, the seats of row "A 1" are labelled "A 11" … "A 15". |
| RowGenerator.ThreeRowsOfFiveLabels | src/components/MapEditor/CreateRowDialog.tsx:48-61 | Label "A", 3 rows of 5 seats and no prefix give rows "A 1".."A 3", and row "A 1" holds seats "A 11".."A 15". |
| RowGenerator.ThreeRowsOfFiveExample | src/components/MapEditor/CreateRowDialog.tsx:48-68 | On a fresh map with one section, the generated rows become exactly that section's rows, in loop order. |
| RowGenerator.HandleCreate | src/components/MapEditor/CreateRowDialog.tsx:31-68 | The outcome is `Validate`'s verdict. When a guard fails, the tree is unchanged. Otherwise the tree is the old one with the generated rows appended in loop order, one `addRow` per pass, checked by loop invariant. The selection is never touched. |
| SectionCard.DragAnchor | src/components/MapEditor/SectionCard.tsx:23-26 | `dragStart`: pointer minus the section's position. Its meaning is `SectionCard.DragFollowsPointer`. |
| SectionCard.DraggedPosition | src/components/MapEditor/SectionCard.tsx:33-37 | The position a move sends: pointer minus `dragStart`. Its meaning is `SectionCard.DragFollowsPointer` and `SectionCard.DragBackRestores`. |
| SectionCard.OccupiedSeats | src/components/MapEditor/SectionCard.tsx:88 | The occupied count of the header. Stated by `SectionCard.OccupiedAtMostTotal` and `SectionCard.SeatCountsAdd`. |
| SectionCard.TotalSeats | src/components/MapEditor/SectionCard.tsx:89 | The total seat count of the header. Stated by `SectionCard.OccupiedAtMostTotal` and `SectionCard.SeatCountsAdd`. |
| SectionCard.DragFollowsPointer | src/components/MapEditor/SectionCard.tsx:23-26 | Moving the pointer by a delta from the press point moves the section by the same delta. Returning to the press point gives the original position. |
| SectionCard.DragBackRestores | src/components/MapEditor/SectionCard.tsx:31-38 | A move back to the press point sends an update that leaves the tree unchanged, when every section with that id sits at the pressed section's position. |
| SectionCard.OccupiedAtMostTotal | src/components/MapEditor/SectionCard.tsx:88-89 | The header's occupied count never exceeds its total seat count. |
| SectionCard.SeatCountsAdd | src/components/MapEditor/SectionCard.tsx:88-89 | Both counts are sums over rows: splitting the rows splits each count. |
| SectionCard.Card.constructor | src/components/MapEditor/SectionCard.tsx:16-17 | A card starts idle, with anchor (0, 0). |
| SectionCard.Card.HandleMouseDown | src/components/MapEditor/SectionCard.tsx:20-28 | A button other than 0 changes nothing. The primary button starts a drag, sets the anchor to pointer − position and selects this section, leaving the tree and the other selection fields alone. |
| SectionCard.Card.HandleMouseMove | src/components/MapEditor/SectionCard.tsx:31-40 | While dragging, the section's position becomes pointer − anchor through `updateSection`. When not dragging, the tree is unchanged. |
| SectionCard.Card.HandleMouseUp | src/components/MapEditor/SectionCard.tsx:42-44 | The drag ends, and the anchor stays. |
| SectionCard.Card.HandleRotate | src/components/MapEditor/SectionCard.tsx:58-61 | Exactly one `rotateSection` is applied to this section. The selection is untouched. |
| Canvas.ZoomStep | src/components/MapEditor/Canvas.tsx:19-20 | The new scale is always within [0.5, 2]. It is exactly `scale + deltaY·(-0.001)` when that value is already within, exactly 2 when it reaches 2 or more, and exactly 0.5 when it reaches 0.5 or less. |
| Canvas.StartsPan | src/components/MapEditor/Canvas.tsx:32 | The pan trigger: button 1, or button 0 with shift. Its effect is stated by `Canvas.StepTransitions`. |
| Canvas.Step | src/components/MapEditor/Canvas.tsx:16-49 | One event through the four handlers. Its behaviour is `Canvas.StepTransitions`, and the `Viewport` handlers are proved to follow it. |
| Canvas.Run | src/components/MapEditor/Canvas.tsx:51-58 | Events handled one after the other. Stated by `Canvas.RunKeepsScaleInRange`, `Canvas.PanReturnsToStart` and `Canvas.RunWheelsIsZoomRepeat`. |
| Canvas.ZoomRepeat | src/components/MapEditor/Canvas.tsx:20 | The scale after n identical zooming wheel events. Its closed form is `Canvas.ZoomInRepeated` and `Canvas.ZoomOutRepeated`. |
| Canvas.Wheels | src/components/MapEditor/Canvas.tsx:16-22 | n wheel events with the same keys and delta. Used by `Canvas.RunWheelsIsZoomRepeat`. |
| Canvas.StepTransitions | src/components/MapEditor/Canvas.tsx:16-49 | A wheel event without ctrl or meta changes nothing, and no wheel event touches the pan. A press that is not button 1 or shift+button 0 changes nothing. A pan press anchors `startPan` at pointer − pan. A move while idle changes nothing, and a move while panning sets pan to pointer − startPan. A release ends the gesture and keeps the pan. |
| Canvas.RunKeepsScaleInRange | src/components/MapEditor/Canvas.tsx:10-20 | A scale in [0.5, 2], such as the initial 1, stays in [0.5, 2] whatever sequence of events follows. |
| Canvas.GestureContinues | src/components/MapEditor/Canvas.tsx:38-45 | Moves and wheel events during a pan neither end it nor move its anchor. |
| Canvas.PanReturnsToStart | src/components/MapEditor/Canvas.tsx:31-45 | A pan press, any moves and wheel events, and then a move back to the press point restore the pan from before the gesture. |
| Canvas.ZoomInSum | src/components/MapEditor/Canvas.tsx:19-20 | n zoom-in events give min(scale + step added n times, 2): every event below the cap adds one full step. |
| Canvas.ZoomOutSum | src/components/MapEditor/Canvas.tsx:19-20 | n zoom-out events give max(scale − step taken n times, 0.5): every event above the floor takes one full step. |
| Canvas.ZoomInRepeated | src/components/MapEditor/Canvas.tsx:19-20 | n zoom-in events (deltaY < 0) give min(scale + n·step, 2). |
| Canvas.ZoomOutRepeated | src/components/MapEditor/Canvas.tsx:19-20 | n zoom-out events (deltaY > 0) give max(scale − n·step, 0.5). |
| Canvas.ZoomInReachesMax | src/components/MapEditor/Canvas.tsx:20 | Enough zoom-in events reach exactly 2, and any more stay there. |
| Canvas.ZoomOutReachesMin | src/components/MapEditor/Canvas.tsx:20 | Enough zoom-out events reach exactly 0.5, and any more stay there. |
| Canvas.RunWheelsIsZoomRepeat | src/components/MapEditor/Canvas.tsx:16-22 | Running n wheel events with ctrl or meta held through `Run` changes only the scale, and changes it to `ZoomRepeat` of the old scale. |
| Canvas.RunZoomInReachesMax | src/components/MapEditor/Canvas.tsx:19-20 | On the event machine, enough zoom-in wheel events from a scale in [0.5, 2] bring it to exactly 2, and leave the pan where it was. |
| Canvas.RunZoomOutReachesMin | src/components/MapEditor/Canvas.tsx:19-20 | On the event machine, enough zoom-out wheel events from a scale in [0.5, 2] bring it to exactly 0.5, and leave the pan where it was. |
| Canvas.Viewport.constructor | src/components/MapEditor/Canvas.tsx:10-13 | The viewport starts at scale 1, pan (0, 0), not panning, with anchor (0, 0). |
| Canvas.Viewport.HandleWheel | src/components/MapEditor/Canvas.tsx:16-22 | The new state is `Step` of the old one on this wheel event, and the scale stays within [0.5, 2]. |
| Canvas.Viewport.HandleMouseDown | src/components/MapEditor/Canvas.tsx:31-36 | The new state is `Step` of the old one on this press. |
| Canvas.Viewport.HandleMouseMove | src/components/MapEditor/Canvas.tsx:38-45 | The new state is `Step` of the old one on this move. |
| Canvas.Viewport.HandleMouseUp | src/components/MapEditor/Canvas.tsx:47-49 | The new state is `Step` of the old one on a release: not panning, and everything else kept. |

## Left out

- These parts are user interface, not logic, and are not part of this model:
  - rendering: JSX, CSS transforms, the `useEffect` listener registration, toasts, confirmation prompts;
  - the dialog's reset of its own form fields after a successful create;
  - `SectionList.tsx`, `Sidebar.tsx`, `SeatGrid.tsx`, `EditSectionDialog.tsx`, `CreateSectionDialog.tsx` and the pages. They only forward to store actions that are modelled here.
- The export and import file plumbing in `Toolbar.tsx` is not part of this model: Blob, object URLs, FileReader and `JSON.parse` are I/O and foreign parsing. Only the store's `exportMap` and `importMap` are modelled.
- `crypto.randomUUID()` is a foreign call. Its results are parameters, and nothing here claims that they are unique.
- `scale` is an IEEE double in the source and a real number here. Rounding is not modelled.
- A `Partial<T>` field that is present but explicitly `undefined` is not modelled. In JavaScript it would overwrite the field with `undefined`; a patch field here is either absent or a real value.
- Untouched subtrees keep their object identity in the source. Dafny datatypes have only value equality, so "unchanged" is stated as equality.
- The source does not make panning and dragging mutually exclusive, and neither does the model. A shift+primary press on a section reaches both the card's handler and the canvas's, because nothing stops propagation.
- `e.preventDefault()` on wheel events and `e.stopPropagation()` on the rotate button are browser event plumbing.
- React batches state updates and handlers see the state of the last render. The model applies each handler to the current state, one event at a time.
- The seat-count header is modelled per section, as a function of its rows.
- Canvas.ZoomInRepeated: proved only for a starting scale within [0.5, 2] and a fixed `deltaY` repeated. For sequences mixing different deltas, or interleaving other events, only the [0.5, 2] bound is proved (Canvas.RunKeepsScaleInRange), not the resulting value.
- Canvas.ZoomOutRepeated: proved only for a starting scale within [0.5, 2] and a fixed `deltaY` repeated. For mixed sequences only the [0.5, 2] bound is proved, as above.
- MapModel.RotateSectionFourTimes: requires the rotated sections to start in [0, 360). From a negative rotation, JavaScript's truncating `%` can give a different value after four turns; MapModel.NextRotationRange states what holds then.
