/**
 * The file explorer's selection store: the selected entries, in selection
 * order, and the set of their ids kept beside them for lookup.
 * Source: desktop/src/hooks/useExplorer/modules/useSelection.js
 */
module Selection {
  import opened FileEntries

  /** The selectionState computed value. */
  datatype SelectionState = SelectionState(
    items: seq<FileEntry>,
    hasFiles: bool,
    hasDirectories: bool,
    count: nat,
    isEmpty: bool,
    files: seq<FileEntry>,
    directories: seq<FileEntry>)

  function StateOf(items: seq<FileEntry>): (r: SelectionState)
    ensures r.items == items && r.count == |items|
    ensures r.isEmpty <==> items == []
    ensures r.hasFiles <==> exists k :: 0 <= k < |items| && items[k].kind == "file"
    ensures r.hasDirectories <==> exists k :: 0 <= k < |items| && items[k].kind == "directory"
    ensures forall e :: e in r.files <==> e in items && e.kind == "file"
    ensures forall e :: e in r.directories <==> e in items && e.kind == "directory"
  {
    var files := OfKind(items, "file");
    var dirs := OfKind(items, "directory");
    OfKindNonEmpty(items, "file");
    OfKindNonEmpty(items, "directory");
    SelectionState(items, files != [], dirs != [], |items|, |items| == 0, files, dirs)
  }

  /** The files and directories of a selection never outnumber it. */
  lemma {:induction false} FilesAndDirectoriesCount(items: seq<FileEntry>)
    ensures |StateOf(items).files| + |StateOf(items).directories| <= StateOf(items).count
  {
    if items != [] {
      FilesAndDirectoriesCount(items[1..]);
    }
  }

  /** What selectMultiple adds: the entries whose ids are new, and with them exactly the ids of the given entries. */
  lemma AddItems(sel: seq<FileEntry>, ids: set<string>, items: seq<FileEntry>)
    requires ids == IdsOf(sel)
    ensures IdsOf(sel + WithoutIds(items, ids)) == ids + IdsOf(WithoutIds(items, ids))
    ensures ids + IdsOf(WithoutIds(items, ids)) == ids + IdsOf(items)
    ensures WithoutIds(items, ids) == [] ==> ids + IdsOf(items) == ids
    ensures DistinctIds(sel) && DistinctIds(items) ==> DistinctIds(sel + WithoutIds(items, ids))
  {
    var newItems := WithoutIds(items, ids);
    if DistinctIds(sel) && DistinctIds(items) {
      WithoutIdsDistinct(items, ids);
      AppendDistinct(sel, newItems);
    }
    IdsOfAppend(sel, newItems);
    if newItems == [] {
      assert IdsOf(newItems) == {};
    }
  }

  class SelectionStore {
    var selectedItems: seq<FileEntry>
    var selectedIds: set<string>

    /** selectedIds always holds exactly the ids of selectedItems. */
    ghost predicate Valid()
      reads this
    {
      selectedIds == IdsOf(selectedItems)
    }

    constructor ()
      ensures Valid() && selectedItems == [] && selectedIds == {}
    {
      selectedItems := [];
      selectedIds := {};
    }

    predicate IsSelected(item: FileEntry)
      reads this
    {
      item.id in selectedIds
    }

    function HasSelection(): bool
      reads this
    {
      |selectedItems| > 0
    }

    function SelectionCount(): (r: nat)
      reads this
      ensures r == 0 <==> !HasSelection()
    {
      |selectedItems|
    }

    function GetSelectionByType(kind: string): (r: seq<FileEntry>)
      reads this
      ensures forall e :: e in r <==> e in selectedItems && e.kind == kind
    {
      OfKind(selectedItems, kind)
    }

    method Select(item: FileEntry)
      requires Valid()
      modifies this
      ensures Valid()
      ensures old(IsSelected(item)) ==> selectedItems == old(selectedItems)
      ensures !old(IsSelected(item)) ==> selectedItems == old(selectedItems) + [item]
      ensures selectedIds == old(selectedIds) + {item.id}
      ensures DistinctIds(old(selectedItems)) ==> DistinctIds(selectedItems)
    {
      if item.id !in selectedIds {
        AppendDistinctIfNew(selectedItems, item);
        IdsOfAppend(selectedItems, [item]);
        selectedItems := selectedItems + [item];
        selectedIds := selectedIds + {item.id};
      }
    }

    method Deselect(item: FileEntry)
      requires Valid()
      modifies this
      ensures Valid()
      ensures selectedItems == WithoutIds(old(selectedItems), {item.id})
      ensures selectedIds == old(selectedIds) - {item.id}
      ensures !IsSelected(item)
      ensures DistinctIds(old(selectedItems)) ==> DistinctIds(selectedItems)
    {
      if item.id in selectedIds {
        if DistinctIds(selectedItems) {
          WithoutIdsDistinct(selectedItems, {item.id});
        }
        selectedItems := WithoutIds(selectedItems, {item.id});
        selectedIds := selectedIds - {item.id};
      } else {
        WithoutIdsNone(selectedItems, {item.id});
      }
    }

    method Toggle(item: FileEntry)
      requires Valid()
      modifies this
      ensures Valid()
      ensures IsSelected(item) <==> !old(IsSelected(item))
      ensures selectedIds == if old(IsSelected(item)) then old(selectedIds) - {item.id} else old(selectedIds) + {item.id}
      ensures old(IsSelected(item)) ==> selectedItems == WithoutIds(old(selectedItems), {item.id})
      ensures !old(IsSelected(item)) ==> selectedItems == old(selectedItems) + [item]
      ensures DistinctIds(old(selectedItems)) ==> DistinctIds(selectedItems)
    {
      if IsSelected(item) {
        Deselect(item);
      } else {
        Select(item);
      }
    }

    /** selectMultiple: appends the given entries whose ids are not selected yet. */
    method SelectMultiple(items: seq<FileEntry>)
      requires Valid()
      modifies this
      ensures Valid()
      ensures selectedItems == old(selectedItems) + WithoutIds(items, old(selectedIds))
      ensures selectedIds == old(selectedIds) + IdsOf(items)
      ensures DistinctIds(old(selectedItems)) && DistinctIds(items) ==> DistinctIds(selectedItems)
    {
      var newItems := WithoutIds(items, selectedIds);
      AddItems(selectedItems, selectedIds, items);
      if |newItems| > 0 {
        selectedItems := selectedItems + newItems;
        selectedIds := selectedIds + IdsOf(newItems);
      } else {
        assert selectedItems + newItems == selectedItems;
      }
    }

    method DeselectMultiple(items: seq<FileEntry>)
      requires Valid()
      modifies this
      ensures Valid()
      ensures selectedItems == WithoutIds(old(selectedItems), IdsOf(items))
      ensures selectedIds == old(selectedIds) - IdsOf(items)
      ensures DistinctIds(old(selectedItems)) ==> DistinctIds(selectedItems)
    {
      if DistinctIds(selectedItems) {
        WithoutIdsDistinct(selectedItems, IdsOf(items));
      }
      selectedItems := WithoutIds(selectedItems, IdsOf(items));
      selectedIds := selectedIds - IdsOf(items);
    }

    /** setSelection (and selectAll, and onSelectionChange, which do the same). */
    method SetSelection(items: seq<FileEntry>)
      modifies this
      ensures Valid()
      ensures selectedItems == items && selectedIds == IdsOf(items)
    {
      selectedItems := items;
      selectedIds := IdsOf(items);
    }

    method ClearSelection()
      modifies this
      ensures Valid()
      ensures selectedItems == [] && selectedIds == {}
    {
      selectedItems := [];
      selectedIds := {};
    }

    /** invertSelection(allItems): select exactly the entries of allItems that are not selected now. */
    method InvertSelection(allItems: seq<FileEntry>)
      requires Valid()
      modifies this
      ensures Valid()
      ensures selectedItems == WithoutIds(allItems, old(selectedIds))
      ensures forall e :: e in allItems ==> (IsSelected(e) <==> !old(IsSelected(e)))
      ensures DistinctIds(allItems) ==> DistinctIds(selectedItems)
    {
      if DistinctIds(allItems) {
        WithoutIdsDistinct(allItems, selectedIds);
      }
      SetSelection(WithoutIds(allItems, IdsOf(selectedItems)));
    }
  }

  lemma AppendDistinctIfNew(items: seq<FileEntry>, item: FileEntry)
    requires item.id !in IdsOf(items)
    ensures DistinctIds(items) ==> DistinctIds(items + [item])
  {
    if DistinctIds(items) {
      AppendDistinct(items, [item]);
    }
  }

  lemma {:induction false} WithoutIdsNone(items: seq<FileEntry>, ids: set<string>)
    requires IdsOf(items) !! ids
    ensures WithoutIds(items, ids) == items
  {
    if items != [] {
      assert IdsOf(items) == {items[0].id} + IdsOf(items[1..]);
      WithoutIdsNone(items[1..], ids);
      assert WithoutIds(items, ids) == [items[0]] + WithoutIds(items[1..], ids);
      assert items == [items[0]] + items[1..];
    }
  }

  /**
   * Toggling an entry twice restores the selected ids; an entry that was not
   * selected leaves the list as it was, one that was selected moves to the end.
   */
  method ToggleTwice(store: SelectionStore, item: FileEntry)
    requires store.Valid()
    modifies store
    ensures store.Valid()
    ensures store.selectedIds == old(store.selectedIds)
    ensures !old(store.IsSelected(item)) ==> store.selectedItems == old(store.selectedItems)
    ensures old(store.IsSelected(item)) ==> store.selectedItems == WithoutIds(old(store.selectedItems), {item.id}) + [item]
  {
    if store.IsSelected(item) {
      store.Toggle(item);
      store.Toggle(item);
    } else {
      ghost var before := store.selectedItems;
      store.Toggle(item);
      store.Toggle(item);
      WithoutIdsAppend(before, [item], {item.id});
      WithoutIdsNone(before, {item.id});
    }
  }

  /** Inverting the selection twice over the same entries re-selects what was selected among them. */
  method InvertTwice(store: SelectionStore, allItems: seq<FileEntry>)
    requires store.Valid()
    modifies store
    ensures store.Valid()
    ensures store.selectedIds == old(store.selectedIds) * IdsOf(allItems)
  {
    store.InvertSelection(allItems);
    store.InvertSelection(allItems);
  }
}
