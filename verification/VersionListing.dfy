/** Listing the versions of a bucket: the `IsLatest` flag is computed from the key before, which on
    the first row of a page is the key marker of the request. */
module VersionListing {
  import opened Wrappers

  /** A version as the metadata service lists it. */
  datatype Item = Item(key: string, versionId: Option<string>, isNull: bool, isDeleteMarker: bool)

  /** A row of the answer. */
  datatype Row = Row(isDeleteMarker: bool, key: string, versionId: string, isLatest: bool)

  type Escape = string -> string

  ghost predicate Injective(escape: Escape) {
    forall a, b :: escape(a) == escape(b) ==> a == b
  }

  /** Object keys are not empty. */
  predicate HasKeys(items: seq<Item>) {
    forall i :: 0 <= i < |items| ==> items[i].key != ""
  }

  function ShownVersionId(item: Item, encode: string -> string): string {
    if item.isNull || item.versionId.None? then "null" else encode(item.versionId.value)
  }

  /** The key before item i: the key marker before the first one. */
  function KeyBefore(keyMarker: string, items: seq<Item>, i: nat): string
    requires i < |items|
  {
    if i == 0 then keyMarker else items[i - 1].key
  }

  /** The row of item i: its key is latest unless it is shown as the key before. */
  function RowAt(keyMarker: string, items: seq<Item>, i: nat, escape: Escape, encode: string -> string): Row
    requires i < |items|
  {
    var before := KeyBefore(keyMarker, items, i);
    Row(items[i].isDeleteMarker, escape(items[i].key), ShownVersionId(items[i], encode),
        (i == 0 && before == "") || escape(before) != escape(items[i].key))
  }

  function Rows(keyMarker: string, items: seq<Item>, escape: Escape, encode: string -> string): (rows: seq<Row>)
    ensures |rows| == |items|
  {
    seq(|items|, i requires 0 <= i < |items| => RowAt(keyMarker, items, i, escape, encode))
  }

  /** What a row says of its item. It is latest unless it shows the key of the row before, or of the key
      marker if it is the first one. */
  ghost predicate IsRowOf(row: Row, item: Item, before: Option<string>, escape: Escape, encode: string -> string) {
    && row.key == escape(item.key)
    && row.isDeleteMarker == item.isDeleteMarker
    && (item.isNull || item.versionId.None? ==> row.versionId == "null")
    && (!item.isNull && item.versionId.Some? ==> row.versionId == encode(item.versionId.value))
    && (row.isLatest <==> before.None? || escape(before.value) != escape(item.key))
  }

  function ShownBefore(keyMarker: string, items: seq<Item>, i: nat): Option<string>
    requires i < |items|
  {
    if i > 0 then Some(items[i - 1].key) else if keyMarker != "" then Some(keyMarker) else None
  }

  lemma RowIs(keyMarker: string, items: seq<Item>, i: nat, escape: Escape, encode: string -> string)
    requires i < |items|
    ensures IsRowOf(RowAt(keyMarker, items, i, escape, encode), items[i], ShownBefore(keyMarker, items, i), escape, encode)
  {
  }

  /** The loop carries the last key it has shown; an empty key marker counts as none. */
  method ProcessVersions(keyMarker: string, items: seq<Item>, escape: Escape, encode: string -> string)
    returns (rows: seq<Row>)
    ensures rows == Rows(keyMarker, items, escape, encode)
    ensures |rows| == |items|
    ensures forall i: nat :: i < |items| ==> IsRowOf(rows[i], items[i], ShownBefore(keyMarker, items, i), escape, encode)
  {
    rows := [];
    var lastKey := if keyMarker != "" then Some(escape(keyMarker)) else None;
    for i := 0 to |items|
      invariant |rows| == i
      invariant forall j :: 0 <= j < i ==> rows[j] == RowAt(keyMarker, items, j, escape, encode)
      invariant i == 0 ==> lastKey == if keyMarker != "" then Some(escape(keyMarker)) else None
      invariant i > 0 ==> lastKey == Some(escape(items[i - 1].key))
    {
      var objectKey := escape(items[i].key);
      var isLatest := lastKey != Some(objectKey);
      lastKey := Some(objectKey);
      rows := rows + [Row(items[i].isDeleteMarker, objectKey, ShownVersionId(items[i], encode), isLatest)];
    }
    forall i: nat | i < |items|
      ensures IsRowOf(rows[i], items[i], ShownBefore(keyMarker, items, i), escape, encode)
    {
      RowIs(keyMarker, items, i, escape, encode);
    }
  }

  // ----- one listing, page by page

  /** Each page has at least one item. */
  predicate HasPages(pages: seq<seq<Item>>) {
    forall i :: 0 <= i < |pages| ==> pages[i] != [] && HasKeys(pages[i])
  }

  /** Each page is asked for with the last key of the page before. */
  function RowsOfPages(keyMarker: string, pages: seq<seq<Item>>, escape: Escape, encode: string -> string): seq<Row>
    requires HasPages(pages)
    decreases |pages|
  {
    if pages == [] then []
    else
      var page := pages[0];
      Rows(keyMarker, page, escape, encode) + RowsOfPages(page[|page| - 1].key, pages[1..], escape, encode)
  }

  function Flatten(pages: seq<seq<Item>>): seq<Item> {
    if pages == [] then [] else pages[0] + Flatten(pages[1..])
  }

  lemma RowsJoin(keyMarker: string, page: seq<Item>, rest: seq<Item>, escape: Escape, encode: string -> string)
    requires page != [] && HasKeys(page)
    ensures Rows(keyMarker, page + rest, escape, encode)
            == Rows(keyMarker, page, escape, encode) + Rows(page[|page| - 1].key, rest, escape, encode)
  {
    var all := page + rest;
    forall i | 0 <= i < |all|
      ensures RowAt(keyMarker, all, i, escape, encode)
              == if i < |page| then RowAt(keyMarker, page, i, escape, encode)
                 else RowAt(page[|page| - 1].key, rest, i - |page|, escape, encode)
    {
    }
  }

  /** However a listing is split into pages, the rows are those of the unsplit listing. */
  lemma {:induction false} PagesShowTheSameRows(keyMarker: string, pages: seq<seq<Item>>, escape: Escape,
                                                encode: string -> string)
    requires HasPages(pages)
    ensures RowsOfPages(keyMarker, pages, escape, encode) == Rows(keyMarker, Flatten(pages), escape, encode)
    decreases |pages|
  {
    if pages != [] {
      var page, rest := pages[0], pages[1..];
      assert HasPages(rest) && HasKeys(page) && page != [];
      PagesShowTheSameRows(page[|page| - 1].key, rest, escape, encode);
      RowsJoin(keyMarker, page, Flatten(rest), escape, encode);
      assert Flatten(pages) == page + Flatten(rest);
    }
  }

  /** A request may also come with a key marker that no page ended with. A page is still right
      exactly when the marker is the key of its first item if and only if that item has another
      version of its key before it in the listing. */
  lemma PageIsRightExactly(items: seq<Item>, from: nat, to: nat, keyMarker: string, escape: Escape, encode: string -> string)
    requires Injective(escape) && HasKeys(items) && from < to <= |items|
    ensures Rows(keyMarker, items[from..to], escape, encode) == Rows("", items, escape, encode)[from..to]
            <==> (keyMarker == items[from].key <==> from > 0 && items[from - 1].key == items[from].key)
  {
    var page, all := Rows(keyMarker, items[from..to], escape, encode), Rows("", items, escape, encode);
    forall k | 0 < k < to - from
      ensures page[k] == all[from..to][k]
    {
    }
    assert all[from..to][0] == all[from];
  }

  // ----- which versions are latest

  /** The versions of a key are listed one after the other. */
  ghost predicate Grouped(items: seq<Item>) {
    forall i, j, k :: 0 <= i < j < k < |items| && items[i].key == items[k].key ==> items[j].key == items[i].key
  }

  /** Item i is the first version of its key, which is the newest one. */
  ghost predicate IsFirstOfKey(items: seq<Item>, i: nat)
    requires i < |items|
  {
    forall j :: 0 <= j < i ==> items[j].key != items[i].key
  }

  /** In a whole listing the flag is set for the first version of each key, and for no other one. */
  lemma LatestIsFirstOfKey(items: seq<Item>, i: nat, escape: Escape, encode: string -> string)
    requires Injective(escape) && Grouped(items) && i < |items|
    ensures Rows("", items, escape, encode)[i].isLatest <==> IsFirstOfKey(items, i)
  {
    if i > 0 && items[i - 1].key != items[i].key {
      forall j | 0 <= j < i
        ensures items[j].key != items[i].key
      {
      }
    }
  }

  lemma {:induction false} FirstOfKeyExists(items: seq<Item>, i: nat) returns (first: nat)
    requires i < |items|
    ensures first <= i && items[first].key == items[i].key && IsFirstOfKey(items, first)
    decreases i
  {
    if IsFirstOfKey(items, i) {
      first := i;
    } else {
      var j :| 0 <= j < i && items[j].key == items[i].key;
      first := FirstOfKeyExists(items, j);
    }
  }

  /** A version of this key that the answer shows as latest. */
  ghost predicate ShownAsLatest(items: seq<Item>, key: string, i: nat, escape: Escape, encode: string -> string) {
    i < |items| && items[i].key == key && Rows("", items, escape, encode)[i].isLatest
  }

  /** Every listed key has exactly one version with the flag. */
  lemma ExactlyOneLatest(items: seq<Item>, k: nat, escape: Escape, encode: string -> string)
    requires Injective(escape) && Grouped(items) && k < |items|
    ensures exists i: nat ::
      (ShownAsLatest(items, items[k].key, i, escape, encode)
       && forall j: nat :: ShownAsLatest(items, items[k].key, j, escape, encode) ==> j == i)
  {
    var first := FirstOfKeyExists(items, k);
    LatestIsFirstOfKey(items, first, escape, encode);
    assert ShownAsLatest(items, items[k].key, first, escape, encode);
    forall j: nat | ShownAsLatest(items, items[k].key, j, escape, encode)
      ensures j == first
    {
      LatestIsFirstOfKey(items, j, escape, encode);
    }
  }
}
