/** The zustand store `useMapStore` of `src/store/mapStore.ts`: one object
    whose four fields every action replaces (`set`) with values computed by
    the pure functions of MapModel. */
module MapStore {
  import opened Common
  import opened MapModel

  /** The three selection fields together. */
  datatype Selection = Selection(
    sectionId: Option<string>, rowId: Option<string>, seatIds: seq<string>)

  const NoSelection: Selection := Selection(None, None, [])

  class Store {
    var mapData: MapData
    var selectedSectionId: Option<string>
    var selectedRowId: Option<string>
    var selectedSeatIds: seq<string>

    function CurrentSelection(): Selection
      reads this
    {
      Selection(selectedSectionId, selectedRowId, selectedSeatIds)
    }

    /** The store as created: `initialMapData` (its id a fresh one) and no
        selection. */
    constructor (freshId: string)
      ensures mapData == InitialMapData(freshId)
      ensures mapData.name == "Nuevo Mapa" && mapData.sections == []
      ensures CurrentSelection() == NoSelection
    {
      mapData := InitialMapData(freshId);
      selectedSectionId, selectedRowId, selectedSeatIds := None, None, [];
    }

    method SetMapName(name: string)
      modifies this
      ensures mapData == MapModel.SetMapName(old(mapData), name)
      ensures CurrentSelection() == old(CurrentSelection())
    {
      mapData := MapModel.SetMapName(mapData, name);
    }

    method AddSection(section: Section)
      modifies this
      ensures mapData == MapModel.AddSection(old(mapData), section)
      ensures CurrentSelection() == old(CurrentSelection())
    {
      mapData := MapModel.AddSection(mapData, section);
    }

    method UpdateSection(sectionId: string, updates: SectionPatch)
      modifies this
      ensures mapData == MapModel.UpdateSection(old(mapData), sectionId, updates)
      ensures CurrentSelection() == old(CurrentSelection())
    {
      mapData := MapModel.UpdateSection(mapData, sectionId, updates);
    }

    /** Deletes the sections with the id and clears `selectedSectionId` when it
        named that id; the row and seat selections are left as they are. */
    method DeleteSection(sectionId: string)
      modifies this
      ensures mapData == MapModel.DeleteSection(old(mapData), sectionId)
      ensures selectedSectionId == Deselect(old(selectedSectionId), sectionId)
      ensures selectedSectionId == None <==> old(selectedSectionId) in {None, Some(sectionId)}
      ensures selectedRowId == old(selectedRowId) && selectedSeatIds == old(selectedSeatIds)
    {
      mapData := MapModel.DeleteSection(mapData, sectionId);
      selectedSectionId := Deselect(selectedSectionId, sectionId);
    }

    method RotateSection(sectionId: string)
      modifies this
      ensures mapData == MapModel.RotateSection(old(mapData), sectionId)
      ensures CurrentSelection() == old(CurrentSelection())
    {
      mapData := MapModel.RotateSection(mapData, sectionId);
    }

    method AddRow(sectionId: string, row: Row)
      modifies this
      ensures mapData == MapModel.AddRow(old(mapData), sectionId, row)
      ensures CurrentSelection() == old(CurrentSelection())
    {
      mapData := MapModel.AddRow(mapData, sectionId, row);
    }

    method UpdateRow(sectionId: string, rowId: string, updates: RowPatch)
      modifies this
      ensures mapData == MapModel.UpdateRow(old(mapData), sectionId, rowId, updates)
      ensures CurrentSelection() == old(CurrentSelection())
    {
      mapData := MapModel.UpdateRow(mapData, sectionId, rowId, updates);
    }

    /** Deletes the rows with `rowId` inside the sections with `sectionId`, and
        clears `selectedRowId` whenever it named `rowId`, even if no section
        matched. */
    method DeleteRow(sectionId: string, rowId: string)
      modifies this
      ensures mapData == MapModel.DeleteRow(old(mapData), sectionId, rowId)
      ensures selectedRowId == Deselect(old(selectedRowId), rowId)
      ensures selectedRowId == None <==> old(selectedRowId) in {None, Some(rowId)}
      ensures selectedSectionId == old(selectedSectionId) && selectedSeatIds == old(selectedSeatIds)
    {
      mapData := MapModel.DeleteRow(mapData, sectionId, rowId);
      selectedRowId := Deselect(selectedRowId, rowId);
    }

    method UpdateSeat(sectionId: string, rowId: string, seatId: string, updates: SeatPatch)
      modifies this
      ensures mapData == MapModel.UpdateSeat(old(mapData), sectionId, rowId, seatId, updates)
      ensures CurrentSelection() == old(CurrentSelection())
    {
      mapData := MapModel.UpdateSeat(mapData, sectionId, rowId, seatId, updates);
    }

    method ToggleSeatOccupancy(sectionId: string, rowId: string, seatId: string)
      modifies this
      ensures mapData == MapModel.ToggleSeatOccupancy(old(mapData), sectionId, rowId, seatId)
      ensures CurrentSelection() == old(CurrentSelection())
    {
      mapData := MapModel.ToggleSeatOccupancy(mapData, sectionId, rowId, seatId);
    }

    method SetSelectedSection(sectionId: Option<string>)
      modifies this
      ensures selectedSectionId == sectionId
      ensures mapData == old(mapData)
      ensures selectedRowId == old(selectedRowId) && selectedSeatIds == old(selectedSeatIds)
    {
      selectedSectionId := sectionId;
    }

    method SetSelectedRow(rowId: Option<string>)
      modifies this
      ensures selectedRowId == rowId
      ensures mapData == old(mapData)
      ensures selectedSectionId == old(selectedSectionId) && selectedSeatIds == old(selectedSeatIds)
    {
      selectedRowId := rowId;
    }

    method ToggleSeatSelection(seatId: string)
      modifies this
      ensures selectedSeatIds == ToggleSeatId(old(selectedSeatIds), seatId)
      ensures seatId in selectedSeatIds <==> seatId !in old(selectedSeatIds)
      ensures mapData == old(mapData)
      ensures selectedSectionId == old(selectedSectionId) && selectedRowId == old(selectedRowId)
    {
      selectedSeatIds := ToggleSeatId(selectedSeatIds, seatId);
    }

    method ClearSeatSelection()
      modifies this
      ensures selectedSeatIds == []
      ensures mapData == old(mapData)
      ensures selectedSectionId == old(selectedSectionId) && selectedRowId == old(selectedRowId)
    {
      selectedSeatIds := [];
    }

    /** `exportMap`: the current tree, by value. */
    method ExportMap() returns (data: MapData)
      ensures data == mapData
    {
      data := mapData;
    }

    /** `importMap`: install the given tree as it is and clear all selection. */
    method ImportMap(data: MapData)
      modifies this
      ensures mapData == data
      ensures CurrentSelection() == NoSelection
    {
      mapData := data;
      selectedSectionId, selectedRowId, selectedSeatIds := None, None, [];
    }

    /** `resetMap`: a fresh empty map named "Nuevo Mapa", no selection. */
    method ResetMap(freshId: string)
      modifies this
      ensures mapData == InitialMapData(freshId)
      ensures mapData.id == freshId && mapData.name == "Nuevo Mapa" && mapData.sections == []
      ensures CurrentSelection() == NoSelection
    {
      mapData := InitialMapData(freshId);
      selectedSectionId, selectedRowId, selectedSeatIds := None, None, [];
    }
  }

  /** Importing what was just exported keeps the tree exactly and clears the
      selection. */
  method ExportThenImport(store: Store)
    modifies store
    ensures store.mapData == old(store.mapData)
    ensures store.CurrentSelection() == NoSelection
  {
    var data := store.ExportMap();
    store.ImportMap(data);
  }
}
