/**
 * The file explorer's clipboard: the entries copied or cut, the action, and
 * the directory they were taken from.
 * Source: desktop/src/hooks/useExplorer/modules/useClipboard.js
 */
module FileClipboard {
  import opened Wrappers
  import opened FileEntries

  datatype ClipboardAction = CopyAction | CutAction

  /** copy and cut accept one entry or an array of entries. */
  datatype Selection = One(entry: FileEntry) | Many(entries: seq<FileEntry>)

  /** Array.isArray(items) ? items : [items] */
  function AsArray(items: Selection): (r: seq<FileEntry>)
    ensures items.One? ==> r == [items.entry]
    ensures items.Many? ==> r == items.entries
  {
    match items
    case One(e) => [e]
    case Many(es) => es
  }

  /** The clipboardState computed value. */
  datatype ClipboardState = ClipboardState(
    items: seq<FileEntry>,
    action: Option<ClipboardAction>,
    sourcePath: string,
    count: nat,
    isEmpty: bool,
    isCut: bool,
    isCopy: bool)

  class Clipboard {
    var clipboardItems: seq<FileEntry>
    var clipboardAction: Option<ClipboardAction>
    var sourcePath: string

    /** Without an action the clipboard is empty and has no source path, as after clear; copy and cut always set an action, even for an empty list. */
    ghost predicate Valid()
      reads this
    {
      clipboardAction.None? ==> clipboardItems == [] && sourcePath == ""
    }

    constructor ()
      ensures Valid()
      ensures clipboardItems == [] && clipboardAction == None && sourcePath == ""
    {
      clipboardItems := [];
      clipboardAction := None;
      sourcePath := "";
    }

    function HasClipboard(): bool
      reads this
    {
      |clipboardItems| > 0
    }

    predicate IsCutOperation()
      reads this
    {
      clipboardAction == Some(CutAction)
    }

    predicate IsCopyOperation()
      reads this
      ensures IsCopyOperation() ==> !IsCutOperation()
    {
      clipboardAction == Some(CopyAction)
    }

    function State(): (r: ClipboardState)
      reads this
      ensures r.count == |r.items| && (r.isEmpty <==> r.items == [])
      ensures !(r.isCut && r.isCopy)
      ensures r.action.None? ==> !r.isCut && !r.isCopy
    {
      ClipboardState(clipboardItems, clipboardAction, sourcePath, |clipboardItems|,
        |clipboardItems| == 0, IsCutOperation(), IsCopyOperation())
    }

    /** isInClipboard: an entry with the same id is on the clipboard. */
    predicate IsInClipboard(item: FileEntry)
      reads this
      ensures IsInClipboard(item) ==> HasClipboard()
    {
      exists k :: 0 <= k < |clipboardItems| && clipboardItems[k].id == item.id
    }

    /** isCut: shown translucent only while the clipboard holds a cut. */
    predicate IsCut(item: FileEntry)
      reads this
      ensures IsCut(item) ==> HasClipboard() && !IsCopyOperation()
    {
      IsCutOperation() && IsInClipboard(item)
    }

    /** getItemsToRemove: after a paste, only a cut removes the originals. */
    function ItemsToRemove(): (r: seq<FileEntry>)
      reads this
      ensures IsCutOperation() ==> r == clipboardItems
      ensures !IsCutOperation() ==> r == []
      ensures forall e :: e in r ==> IsCut(e)
    {
      if IsCutOperation() then clipboardItems else []
    }

    method Put(items: Selection, currentPath: string, action: ClipboardAction)
      modifies this
      ensures Valid()
      ensures clipboardItems == AsArray(items) && clipboardAction == Some(action) && sourcePath == currentPath
    {
      clipboardItems := AsArray(items);
      clipboardAction := Some(action);
      sourcePath := currentPath;
    }

    method Copy(items: Selection, currentPath: string)
      modifies this
      ensures Valid()
      ensures clipboardItems == AsArray(items) && clipboardAction == Some(CopyAction) && sourcePath == currentPath
      ensures ItemsToRemove() == []
    {
      Put(items, currentPath, CopyAction);
    }

    method Cut(items: Selection, currentPath: string)
      modifies this
      ensures Valid()
      ensures clipboardItems == AsArray(items) && clipboardAction == Some(CutAction) && sourcePath == currentPath
      ensures ItemsToRemove() == AsArray(items)
      ensures forall e :: e in AsArray(items) ==> IsCut(e)
    {
      Put(items, currentPath, CutAction);
      forall e | e in AsArray(items) ensures IsCut(e) {
        var k :| 0 <= k < |clipboardItems| && clipboardItems[k] == e;
      }
    }

    method Clear()
      modifies this
      ensures Valid()
      ensures clipboardItems == [] && clipboardAction == None && sourcePath == ""
      ensures !HasClipboard() && ItemsToRemove() == []
    {
      clipboardItems := [];
      clipboardAction := None;
      sourcePath := "";
    }
  }
}
