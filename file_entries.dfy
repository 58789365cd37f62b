/**
 * The file explorer's entry record and the list operations the selection and
 * clipboard stores apply to entry lists.
 * Source: desktop/src/hooks/useExplorer/types.js
 */
module FileEntries {
  import opened JsValues

  /**
   * A FileEntry: id is the full path, kind is the `type` field ("file" or
   * "directory"), size is the formatted size the directory listing produces
   * (a string, or undefined for an empty file) and rawSize the byte count.
   */
  datatype FileEntry = FileEntry(id: string, name: string, kind: string, size: Value, rawSize: nat)

  /** new Set(items.map(item => item.id)) */
  function IdsOf(items: seq<FileEntry>): (r: set<string>)
    ensures forall id :: id in r <==> exists k :: 0 <= k < |items| && items[k].id == id
  {
    if items == [] then {} else {items[0].id} + IdsOf(items[1..])
  }

  /** items.filter(item => !ids.has(item.id)) */
  function WithoutIds(items: seq<FileEntry>, ids: set<string>): (r: seq<FileEntry>)
    ensures |r| <= |items|
    ensures forall e :: e in r <==> e in items && e.id !in ids
    ensures IdsOf(r) == IdsOf(items) - ids
  {
    if items == [] then []
    else if items[0].id in ids then WithoutIds(items[1..], ids)
    else [items[0]] + WithoutIds(items[1..], ids)
  }

  lemma {:induction false} IdsOfAppend(a: seq<FileEntry>, b: seq<FileEntry>)
    ensures IdsOf(a + b) == IdsOf(a) + IdsOf(b)
  {
    if a == [] {
      assert a + b == b;
    } else {
      assert (a + b)[1..] == a[1..] + b;
      IdsOfAppend(a[1..], b);
    }
  }

  /** Filtering a concatenation filters each part. */
  lemma {:induction false} WithoutIdsAppend(a: seq<FileEntry>, b: seq<FileEntry>, ids: set<string>)
    ensures WithoutIds(a + b, ids) == WithoutIds(a, ids) + WithoutIds(b, ids)
  {
    if a == [] {
      assert a + b == b;
    } else {
      assert (a + b)[1..] == a[1..] + b;
      WithoutIdsAppend(a[1..], b, ids);
    }
  }

  /** items.filter(item => item.type === kind) */
  function OfKind(items: seq<FileEntry>, kind: string): (r: seq<FileEntry>)
    ensures |r| <= |items|
    ensures forall e :: e in r <==> e in items && e.kind == kind
  {
    if items == [] then []
    else if items[0].kind == kind then [items[0]] + OfKind(items[1..], kind)
    else OfKind(items[1..], kind)
  }

  /** items.some(item => item.type === kind) */
  lemma OfKindNonEmpty(items: seq<FileEntry>, kind: string)
    ensures OfKind(items, kind) != [] <==> exists k :: 0 <= k < |items| && items[k].kind == kind
  {
    var r := OfKind(items, kind);
    if r != [] {
      assert r[0] in r;
    }
    if exists k :: 0 <= k < |items| && items[k].kind == kind {
      var k :| 0 <= k < |items| && items[k].kind == kind;
      assert items[k] in r;
    }
  }

  /** No two entries share an id. */
  predicate DistinctIds(items: seq<FileEntry>) {
    forall i, j :: 0 <= i < j < |items| ==> items[i].id != items[j].id
  }

  /** Filtering keeps entries distinct. */
  lemma {:induction false} WithoutIdsDistinct(items: seq<FileEntry>, ids: set<string>)
    requires DistinctIds(items)
    ensures DistinctIds(WithoutIds(items, ids))
  {
    if items != [] {
      WithoutIdsDistinct(items[1..], ids);
      var rest := WithoutIds(items[1..], ids);
      if items[0].id !in ids {
        assert items[0].id !in IdsOf(rest);
        forall k | 0 <= k < |rest| ensures rest[k].id != items[0].id {
          assert rest[k].id in IdsOf(rest);
        }
      }
    }
  }

  /** Removing the ids that survive a first removal keeps exactly the ids that were removed (the double inversion). */
  lemma {:induction false} WithoutIdsTwice(items: seq<FileEntry>, ids: set<string>)
    ensures IdsOf(WithoutIds(items, IdsOf(WithoutIds(items, ids)))) == IdsOf(items) * ids
  {
  }

  /** Appending two lists whose ids do not overlap keeps entries distinct. */
  lemma AppendDistinct(a: seq<FileEntry>, b: seq<FileEntry>)
    requires DistinctIds(a) && DistinctIds(b)
    requires IdsOf(a) !! IdsOf(b)
    ensures DistinctIds(a + b)
  {
    forall i, j | 0 <= i < j < |a + b| ensures (a + b)[i].id != (a + b)[j].id {
      if i < |a| && j >= |a| {
        assert (a + b)[i].id in IdsOf(a);
        assert (a + b)[j] == b[j - |a|];
        assert (a + b)[j].id in IdsOf(b);
      }
    }
  }
}
