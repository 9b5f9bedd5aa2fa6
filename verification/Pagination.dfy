/** Keyset pagination: each page is read on its own, yet a walk stays exact while rows come and go between pages. */
module Pagination {
  import opened Core
  import Money

  /** A value read from the sort column. `Obj` is any object, known only by its text (a Date's, say). */
  datatype Value = Undefined | Null | Bool(b: bool) | Num(n: int) | Str(s: string) | Obj(text: string)

  datatype Row = Row(id: string, fields: map<string, Value>)

  /** What a cursor carries, and what a row is ordered by. */
  datatype Key = Key(value: Value, id: string)

  /** The cursor parameter after decoding; encoding and decoding are an inverse pair. */
  datatype Cursor = Absent | Undecodable | At(key: Key)

  datatype Query = Query(limit: nat, sortBy: string, ascending: bool)

  datatype Page = Page(data: seq<Row>, next: Option<Key>, hasMore: bool)

  /** `localeCompare`: negative, zero or positive. */
  type Collation = (string, string) -> int

  function Field(row: Row, name: string): Value {
    if name == "id" then Str(row.id)
    else if name in row.fields then row.fields[name]
    else Undefined
  }

  function TextOf(v: Value): string {
    match v
    case Undefined => "undefined"
    case Null => "null"
    case Bool(b) => if b then "true" else "false"
    case Num(n) => Money.ToMajorString(n, 0)
    case Str(s) => s
    case Obj(text) => text
  }

  function ToCursorValue(v: Value): Value {
    match v
    case Undefined => Null
    case Obj(text) => Str(text)
    case _ => v
  }

  function CompareValues(collate: Collation, a: Value, b: Value): int {
    if a.Bool? && b.Bool? then (if a.b then 1 else 0) - if b.b then 1 else 0
    else if a.Num? && b.Num? then a.n - b.n
    else if a.Str? && b.Str? then collate(a.s, b.s)
    else collate(TextOf(a), TextOf(b))
  }

  function Directed(cmp: int, q: Query): int { if q.ascending then cmp else -cmp }

  /** The `(sortBy, id)` order in the direction asked for. */
  function Compare(collate: Collation, q: Query, a: Key, b: Key): int {
    var cmp := Directed(CompareValues(collate, a.value, b.value), q);
    if cmp != 0 then cmp else Directed(collate(a.id, b.id), q)
  }

  function KeyOf(row: Row, q: Query): Key { Key(Field(row, q.sortBy), row.id) }

  function CursorOf(row: Row, q: Query): Key { Key(ToCursorValue(Field(row, q.sortBy)), row.id) }

  /** `[...items].sort(...)`: an insertion sort stands for the engine's; `SortIsUnique` shows that any sort agrees. */
  function Sort(collate: Collation, q: Query, items: seq<Row>): (sorted: seq<Row>)
    ensures |sorted| == |items|
    ensures multiset(sorted) == multiset(items)
  {
    if items == [] then []
    else
      var last := |items| - 1;
      assert items == items[..last] + [items[last]];
      Insert(collate, q, Sort(collate, q, items[..last]), items[last])
  }

  function Insert(collate: Collation, q: Query, sorted: seq<Row>, row: Row): (r: seq<Row>)
    ensures |r| == |sorted| + 1
    ensures multiset(r) == multiset(sorted) + multiset{row}
  {
    if sorted == [] then [row]
    else
      var last := |sorted| - 1;
      assert sorted == sorted[..last] + [sorted[last]];
      if Compare(collate, q, KeyOf(sorted[last], q), KeyOf(row, q)) <= 0 then sorted + [row]
      else Insert(collate, q, sorted[..last], row) + [sorted[last]]
  }

  function StartIndex(collate: Collation, q: Query, sorted: seq<Row>, cursor: Cursor): (i: nat)
    ensures i <= |sorted|
  {
    if !cursor.At? then 0
    else First(sorted, row => Compare(collate, q, KeyOf(row, q), cursor.key) > 0).GetOr(|sorted|)
  }

  function Paginate(collate: Collation, q: Query, items: seq<Row>, cursor: Cursor): Page {
    var sorted := Sort(collate, q, items);
    var start := StartIndex(collate, q, sorted, cursor);
    var slice := sorted[start..Min(start + q.limit + 1, |sorted|)];
    var hasMore := |slice| > q.limit;
    var data := if hasMore then slice[..q.limit] else slice;
    Page(data, if hasMore && |data| > 0 then Some(CursorOf(data[|data| - 1], q)) else None, hasMore)
  }

  // ----- when the comparator is an order -----

  /** A collation is a total preorder. */
  ghost predicate Collates(collate: Collation) {
    && (forall a, b :: collate(a, b) < 0 <==> collate(b, a) > 0)
    && (forall a, b, c :: collate(a, b) <= 0 && collate(b, c) <= 0 ==> collate(a, c) <= 0)
  }

  datatype Kind = Flags | Numbers | Texts

  /**
   The values that one column may mix: flags, numbers, or anything compared as text. A missing field belongs to no
   kind.
   */
  predicate OfKind(v: Value, kind: Kind) {
    match kind
    case Flags => v.Bool?
    case Numbers => v.Num?
    case Texts => v.Str? || v.Null? || v.Obj?
  }

  lemma CompareAntisymmetric(collate: Collation, q: Query, kind: Kind, a: Key, b: Key)
    requires Collates(collate) && OfKind(a.value, kind) && OfKind(b.value, kind)
    ensures Compare(collate, q, a, b) < 0 <==> Compare(collate, q, b, a) > 0
  {
  }

  lemma CompareValuesTransitive(collate: Collation, kind: Kind, a: Value, b: Value, c: Value)
    requires Collates(collate) && OfKind(a, kind) && OfKind(b, kind) && OfKind(c, kind)
    requires CompareValues(collate, a, b) <= 0 && CompareValues(collate, b, c) <= 0
    ensures CompareValues(collate, a, c) <= 0
    ensures CompareValues(collate, a, b) < 0 || CompareValues(collate, b, c) < 0 ==> CompareValues(collate, a, c) < 0
  {
    if kind == Texts {
      var s, t, u := TextOf(a), TextOf(b), TextOf(c);
      assert collate(s, t) <= 0 && collate(t, u) <= 0;
      if collate(s, t) < 0 || collate(t, u) < 0 {
        assert collate(u, s) <= 0 ==> collate(u, t) <= 0 && collate(t, s) <= 0;
      }
    }
  }

  lemma CompareTransitive(collate: Collation, q: Query, kind: Kind, a: Key, b: Key, c: Key)
    requires Collates(collate) && OfKind(a.value, kind) && OfKind(b.value, kind) && OfKind(c.value, kind)
    requires Compare(collate, q, a, b) <= 0 && Compare(collate, q, b, c) <= 0
    ensures Compare(collate, q, a, c) <= 0
    ensures Compare(collate, q, a, b) < 0 || Compare(collate, q, b, c) < 0 ==> Compare(collate, q, a, c) < 0
  {
    var (x, y, z) := if q.ascending then (a, b, c) else (c, b, a);
    CompareAntisymmetric(collate, q, kind, a, b);
    CompareValuesTransitive(collate, kind, x.value, y.value, z.value);
    assert collate(x.id, y.id) <= 0 && collate(y.id, z.id) <= 0 ==> collate(x.id, z.id) <= 0;
    assert collate(z.id, x.id) <= 0 && collate(x.id, y.id) <= 0 ==> collate(z.id, y.id) <= 0;
    assert collate(y.id, z.id) <= 0 && collate(z.id, x.id) <= 0 ==> collate(y.id, x.id) <= 0;
  }

  /** The cursor compares exactly as the row it was taken from. */
  lemma CursorStandsForRow(collate: Collation, q: Query, kind: Kind, key: Key, row: Row)
    requires Collates(collate) && OfKind(key.value, kind) && OfKind(Field(row, q.sortBy), kind)
    ensures OfKind(CursorOf(row, q).value, kind)
    ensures Compare(collate, q, key, CursorOf(row, q)) == Compare(collate, q, key, KeyOf(row, q))
  {
  }

  /** A table whose ids the collation tells apart and whose sort column is of one kind. */
  ghost predicate Sortable(collate: Collation, q: Query, kind: Kind, items: seq<Row>) {
    && (forall i :: 0 <= i < |items| ==> OfKind(Field(items[i], q.sortBy), kind))
    && (forall i, j :: 0 <= i < j < |items| ==> collate(items[i].id, items[j].id) != 0)
  }

  ghost predicate Ascending(collate: Collation, q: Query, rows: seq<Row>) {
    forall i, j :: 0 <= i < j < |rows| ==> Compare(collate, q, KeyOf(rows[i], q), KeyOf(rows[j], q)) < 0
  }

  /** Rows of one kind, whatever their order. */
  ghost predicate AllOfKind(q: Query, kind: Kind, rows: seq<Row>) {
    forall row :: row in rows ==> OfKind(Field(row, q.sortBy), kind)
  }

  lemma SameRows(a: seq<Row>, b: seq<Row>)
    requires multiset(a) == multiset(b)
    ensures forall row :: row in a <==> row in b
  {
    assert forall row :: row in a <==> row in multiset(a);
    assert forall row :: row in b <==> row in multiset(b);
  }

  lemma DistinctIdsCompare(collate: Collation, q: Query, a: Key, b: Key)
    requires collate(a.id, b.id) != 0
    ensures Compare(collate, q, a, b) != 0
  {
  }

  lemma AppendAscends(collate: Collation, q: Query, kind: Kind, rows: seq<Row>, row: Row)
    requires Collates(collate) && AllOfKind(q, kind, rows) && OfKind(Field(row, q.sortBy), kind)
    requires Ascending(collate, q, rows)
    requires rows != [] ==> Compare(collate, q, KeyOf(rows[|rows| - 1], q), KeyOf(row, q)) < 0
    ensures Ascending(collate, q, rows + [row])
  {
    hide Collates, Compare;
    forall i | 0 <= i < |rows|
      ensures Compare(collate, q, KeyOf(rows[i], q), KeyOf(row, q)) < 0
    {
      if i < |rows| - 1 {
        CompareTransitive(collate, q, kind, KeyOf(rows[i], q), KeyOf(rows[|rows| - 1], q), KeyOf(row, q));
      }
    }
  }

  lemma InsertKeepsRows(collate: Collation, q: Query, kind: Kind, sorted: seq<Row>, row: Row)
    requires AllOfKind(q, kind, sorted) && OfKind(Field(row, q.sortBy), kind)
    ensures AllOfKind(q, kind, Insert(collate, q, sorted, row))
    ensures forall other :: other in Insert(collate, q, sorted, row) ==> other in sorted || other == row
  {
    hide Compare, Insert;
    SameRows(Insert(collate, q, sorted, row), sorted + [row]);
  }

  lemma {:induction false} InsertAscends(collate: Collation, q: Query, kind: Kind, sorted: seq<Row>, row: Row)
    requires Collates(collate) && AllOfKind(q, kind, sorted) && OfKind(Field(row, q.sortBy), kind)
    requires Ascending(collate, q, sorted)
    requires forall other :: other in sorted ==> collate(other.id, row.id) != 0
    ensures Ascending(collate, q, Insert(collate, q, sorted, row))
  {
    hide Collates, Compare;
    if sorted != [] {
      var last := |sorted| - 1;
      var init, top := sorted[..last], sorted[last];
      if Compare(collate, q, KeyOf(top, q), KeyOf(row, q)) <= 0 {
        DistinctIdsCompare(collate, q, KeyOf(top, q), KeyOf(row, q));
        AppendAscends(collate, q, kind, sorted, row);
      } else {
        InsertAscends(collate, q, kind, init, row);
        InsertKeepsRows(collate, q, kind, init, row);
        CompareAntisymmetric(collate, q, kind, KeyOf(row, q), KeyOf(top, q));
        var inserted := Insert(collate, q, init, row);
        assert inserted[|inserted| - 1] in inserted;
        AppendAscends(collate, q, kind, inserted, top);
      }
    }
  }

  lemma SortableInit(collate: Collation, q: Query, kind: Kind, items: seq<Row>)
    requires Sortable(collate, q, kind, items) && items != []
    ensures var init, row := items[..|items| - 1], items[|items| - 1];
            && Sortable(collate, q, kind, init) && OfKind(Field(row, q.sortBy), kind)
            && forall other :: other in init ==> collate(other.id, row.id) != 0
  {
  }

  lemma {:induction false} SortAscends(collate: Collation, q: Query, kind: Kind, items: seq<Row>)
    requires Collates(collate) && Sortable(collate, q, kind, items)
    ensures AllOfKind(q, kind, Sort(collate, q, items))
    ensures Ascending(collate, q, Sort(collate, q, items))
  {
    hide Collates, Compare, Insert;
    SameRows(items, Sort(collate, q, items));
    if items != [] {
      hide Sortable;
      var init, row := items[..|items| - 1], items[|items| - 1];
      SortableInit(collate, q, kind, items);
      SortAscends(collate, q, kind, init);
      SameRows(init, Sort(collate, q, init));
      InsertAscends(collate, q, kind, Sort(collate, q, init), row);
    }
  }

  lemma SameTails(a: seq<Row>, b: seq<Row>)
    requires a != [] && b != [] && a[0] == b[0] && multiset(a) == multiset(b)
    ensures multiset(a[1..]) == multiset(b[1..])
  {
    assert a == [a[0]] + a[1..] && b == [b[0]] + b[1..];
    assert multiset(a[1..]) == multiset(a) - multiset{a[0]};
    assert multiset(b[1..]) == multiset(b) - multiset{a[0]};
  }

  lemma SameLength(a: seq<Row>, b: seq<Row>)
    requires multiset(a) == multiset(b)
    ensures |a| == |b|
  {
    assert |multiset(a)| == |a| && |multiset(b)| == |b|;
  }

  lemma SameHeads(collate: Collation, q: Query, kind: Kind, a: seq<Row>, b: seq<Row>)
    requires Collates(collate) && AllOfKind(q, kind, a) && a != [] && b != []
    requires Ascending(collate, q, a) && Ascending(collate, q, b)
    requires multiset(a) == multiset(b)
    ensures a[0] == b[0]
  {
    hide Collates, Compare;
    SameRows(a, b);
    assert a[0] in a && b[0] in b;
    CompareAntisymmetric(collate, q, kind, KeyOf(a[0], q), KeyOf(b[0], q));
  }

  /** Two ascending arrangements of the same rows are the same, so the page does not depend on the sorting algorithm. */
  lemma {:induction false} SortIsUnique(collate: Collation, q: Query, kind: Kind, a: seq<Row>, b: seq<Row>)
    requires Collates(collate) && AllOfKind(q, kind, a)
    requires Ascending(collate, q, a) && Ascending(collate, q, b)
    requires multiset(a) == multiset(b)
    ensures a == b
  {
    hide Collates, Compare;
    SameLength(a, b);
    if a != [] {
      SameHeads(collate, q, kind, a, b);
      SameTails(a, b);
      SortIsUnique(collate, q, kind, a[1..], b[1..]);
      assert a == [a[0]] + a[1..] && b == [b[0]] + b[1..];
    }
  }

  /** The rows a page may still return. */
  ghost predicate After(collate: Collation, q: Query, cursor: Cursor, row: Row) {
    cursor.At? ==> Compare(collate, q, cursor.key, KeyOf(row, q)) < 0
  }

  ghost predicate CursorOfKind(kind: Kind, cursor: Cursor) {
    cursor.At? ==> OfKind(cursor.key.value, kind)
  }

  lemma StartSplits(collate: Collation, q: Query, kind: Kind, sorted: seq<Row>, cursor: Cursor)
    requires Collates(collate) && AllOfKind(q, kind, sorted) && CursorOfKind(kind, cursor)
    requires Ascending(collate, q, sorted)
    ensures forall i :: 0 <= i < |sorted| ==>
            (After(collate, q, cursor, sorted[i]) <==> StartIndex(collate, q, sorted, cursor) <= i)
  {
    hide Collates, Compare;
    if cursor.At? {
      var start := StartIndex(collate, q, sorted, cursor);
      forall i | 0 <= i < |sorted|
        ensures After(collate, q, cursor, sorted[i]) <==> start <= i
      {
        assert sorted[i] in sorted;
        CompareAntisymmetric(collate, q, kind, KeyOf(sorted[i], q), cursor.key);
        CompareAntisymmetric(collate, q, kind, cursor.key, KeyOf(sorted[i], q));
        if start < i {
          assert sorted[start] in sorted;
          CompareAntisymmetric(collate, q, kind, cursor.key, KeyOf(sorted[start], q));
          CompareTransitive(collate, q, kind, cursor.key, KeyOf(sorted[start], q), KeyOf(sorted[i], q));
        }
      }
    }
  }

  /**
   What one page is: the first `limit` rows after the cursor, in order; `next` stands for its last row and is there
   only if rows remain.
   */
  ghost predicate IsNextPage(collate: Collation, q: Query, items: seq<Row>, cursor: Cursor, page: Page) {
    && Ascending(collate, q, page.data)
    && (forall row :: row in page.data ==> row in items && After(collate, q, cursor, row))
    && (page.next.Some? ==> page.data != [] && page.next.value == CursorOf(page.data[|page.data| - 1], q))
    && (forall row :: row in items && After(collate, q, cursor, row) ==>
          row in page.data || (page.next.Some? && Compare(collate, q, page.next.value, KeyOf(row, q)) < 0))
  }

  lemma PageIsSlice(collate: Collation, q: Query, items: seq<Row>, cursor: Cursor)
      returns (sorted: seq<Row>, start: nat, end: nat)
    requires q.limit >= 1
    ensures sorted == Sort(collate, q, items) && start == StartIndex(collate, q, sorted, cursor)
    ensures start <= end <= |sorted|
    ensures var page := Paginate(collate, q, items, cursor);
            && page.data == sorted[start..end] && page.hasMore == (end < |sorted|)
            && (end < |sorted| ==> end == start + q.limit && page.next == Some(CursorOf(sorted[end - 1], q)))
            && (end == |sorted| ==> page.next.None? && end <= start + q.limit)
  {
    hide Compare, Sort, StartIndex;
    sorted := Sort(collate, q, items);
    start := StartIndex(collate, q, sorted, cursor);
    end := Min(start + q.limit, |sorted|);
    assert sorted[start..Min(start + q.limit + 1, |sorted|)][..end - start] == sorted[start..end];
  }

  lemma SliceMissesNothing(collate: Collation, q: Query, kind: Kind, sorted: seq<Row>, cursor: Cursor, start: nat,
      end: nat, row: Row)
    requires Collates(collate) && AllOfKind(q, kind, sorted) && CursorOfKind(kind, cursor) &&
             Ascending(collate, q, sorted)
    requires start == StartIndex(collate, q, sorted, cursor) && start <= end <= |sorted|
    requires start < end || end == |sorted|
    requires row in sorted && After(collate, q, cursor, row)
    ensures row in sorted[start..end] || (start < end < |sorted| &&
            Compare(collate, q, CursorOf(sorted[end - 1], q), KeyOf(row, q)) < 0)
  {
    hide Collates, Compare, StartIndex;
    StartSplits(collate, q, kind, sorted, cursor);
    var i :| 0 <= i < |sorted| && sorted[i] == row;
    if i < end {
      assert row == sorted[start..end][i - start];
    } else {
      CursorBeforeLater(collate, q, kind, sorted[end - 1], row);
    }
  }

  lemma SliceFollows(collate: Collation, q: Query, kind: Kind, sorted: seq<Row>, cursor: Cursor, start: nat, end: nat)
    requires Collates(collate) && AllOfKind(q, kind, sorted) && CursorOfKind(kind, cursor) &&
             Ascending(collate, q, sorted)
    requires start == StartIndex(collate, q, sorted, cursor) && start <= end <= |sorted|
    ensures Ascending(collate, q, sorted[start..end])
    ensures forall row :: row in sorted[start..end] ==> row in sorted && After(collate, q, cursor, row)
  {
    hide Collates, Compare, StartIndex;
    StartSplits(collate, q, kind, sorted, cursor);
    forall row | row in sorted[start..end]
      ensures row in sorted && After(collate, q, cursor, row)
    {
      var i :| start <= i < end && sorted[i] == row;
    }
  }

  lemma PaginateIsNextPage(collate: Collation, q: Query, kind: Kind, items: seq<Row>, cursor: Cursor)
    requires Collates(collate) && Sortable(collate, q, kind, items) && CursorOfKind(kind, cursor) && q.limit >= 1
    ensures IsNextPage(collate, q, items, cursor, Paginate(collate, q, items, cursor))
    ensures var page := Paginate(collate, q, items, cursor);
            page.next.Some? ==> OfKind(page.next.value.value, kind)
  {
    hide Collates, Compare, Paginate, StartIndex, Sortable, Sort, Ascending, After;
    var sorted, start, end := PageIsSlice(collate, q, items, cursor);
    var page := Paginate(collate, q, items, cursor);
    SortAscends(collate, q, kind, items);
    SameRows(items, sorted);
    SliceFollows(collate, q, kind, sorted, cursor, start, end);
    if page.next.Some? {
      CursorStandsForRow(collate, q, kind, KeyOf(sorted[end - 1], q), sorted[end - 1]);
    }
    forall row | row in items && After(collate, q, cursor, row)
      ensures row in page.data || (page.next.Some? && Compare(collate, q, page.next.value, KeyOf(row, q)) < 0)
    {
      SliceMissesNothing(collate, q, kind, sorted, cursor, start, end, row);
    }
  }

  lemma CursorBeforeLater(collate: Collation, q: Query, kind: Kind, row: Row, later: Row)
    requires Collates(collate) && OfKind(Field(row, q.sortBy), kind) && OfKind(Field(later, q.sortBy), kind)
    requires Compare(collate, q, KeyOf(row, q), KeyOf(later, q)) < 0
    ensures Compare(collate, q, CursorOf(row, q), KeyOf(later, q)) < 0
  {
    hide Collates, Compare;
    CursorStandsForRow(collate, q, kind, KeyOf(later, q), row);
    CompareAntisymmetric(collate, q, kind, KeyOf(row, q), KeyOf(later, q));
    CompareAntisymmetric(collate, q, kind, CursorOf(row, q), KeyOf(later, q));
  }

  // ----- walking the pages -----

  /** Page k is read from the k-th snapshot; the walk ends at a null cursor or when the snapshots do. */
  function Walk(collate: Collation, q: Query, snapshots: seq<seq<Row>>, cursor: Cursor): (pages: seq<Page>)
    ensures |pages| <= |snapshots|
    ensures snapshots != [] ==> pages != []
  {
    if snapshots == [] then []
    else
      var page := Paginate(collate, q, snapshots[0], cursor);
      if page.next.None? then [page] else [page] + Walk(collate, q, snapshots[1..], At(page.next.value))
  }

  function Rows(pages: seq<Page>): seq<Row> {
    if pages == [] then [] else pages[0].data + Rows(pages[1..])
  }

  predicate Finished(pages: seq<Page>) {
    pages != [] && pages[|pages| - 1].next.None?
  }

  ghost predicate Has(items: seq<Row>, id: string) {
    exists row :: row in items && row.id == id
  }

  /** Rows may come and go, but one that is there keeps its sort key, and its id is never given to another. */
  ghost predicate Steady(q: Query, snapshots: seq<seq<Row>>) {
    forall i, j, a, b ::
      0 <= i < |snapshots| && 0 <= j < |snapshots| && a in snapshots[i] && b in snapshots[j] && a.id == b.id ==>
        Field(a, q.sortBy) == Field(b, q.sortBy)
  }

  ghost predicate AllSortable(collate: Collation, q: Query, kind: Kind, snapshots: seq<seq<Row>>) {
    forall i :: 0 <= i < |snapshots| ==> Sortable(collate, q, kind, snapshots[i])
  }

  /** Every row of the walk comes from one of the snapshots. */
  lemma {:induction false} WalkReadsSnapshots(collate: Collation, q: Query, kind: Kind, snapshots: seq<seq<Row>>,
      cursor: Cursor, row: Row)
    requires Collates(collate) && AllSortable(collate, q, kind, snapshots) && CursorOfKind(kind, cursor) && q.limit >= 1
    requires row in Rows(Walk(collate, q, snapshots, cursor))
    ensures exists i :: 0 <= i < |snapshots| && row in snapshots[i]
    ensures OfKind(Field(row, q.sortBy), kind)
  {
    hide Collates, Compare, Paginate;
    var pages := Walk(collate, q, snapshots, cursor);
    PaginateIsNextPage(collate, q, kind, snapshots[0], cursor);
    assert Rows(pages) == pages[0].data + Rows(pages[1..]);
    if row in pages[0].data {
      assert row in snapshots[0];
    } else {
      var rest := snapshots[1..];
      WalkReadsSnapshots(collate, q, kind, rest, At(pages[0].next.value), row);
      var i :| 0 <= i < |rest| && row in rest[i];
      assert row in snapshots[i + 1];
    }
  }

  lemma LaterPageRow(collate: Collation, q: Query, kind: Kind, cursor: Cursor, end: Row, row: Row)
    requires Collates(collate) && CursorOfKind(kind, cursor)
    requires OfKind(Field(end, q.sortBy), kind) && OfKind(Field(row, q.sortBy), kind)
    requires After(collate, q, cursor, end) && After(collate, q, At(CursorOf(end, q)), row)
    ensures Compare(collate, q, KeyOf(end, q), KeyOf(row, q)) < 0
    ensures After(collate, q, cursor, row)
  {
    hide Collates, Compare;
    RowAfterCursor(collate, q, kind, end, row);
    if cursor.At? {
      CompareTransitive(collate, q, kind, cursor.key, KeyOf(end, q), KeyOf(row, q));
    }
  }

  lemma {:induction false} WalkAscends(collate: Collation, q: Query, kind: Kind, snapshots: seq<seq<Row>>,
      cursor: Cursor)
    requires Collates(collate) && AllSortable(collate, q, kind, snapshots) && CursorOfKind(kind, cursor) && q.limit >= 1
    ensures Ascending(collate, q, Rows(Walk(collate, q, snapshots, cursor)))
    ensures forall row :: row in Rows(Walk(collate, q, snapshots, cursor)) ==> After(collate, q, cursor, row)
  {
    hide Collates, Compare, Paginate;
    if snapshots != [] {
      var page := Paginate(collate, q, snapshots[0], cursor);
      PaginateIsNextPage(collate, q, kind, snapshots[0], cursor);
      if page.next.None? {
        assert Rows([page]) == page.data;
      } else {
        var rest, next := snapshots[1..], At(page.next.value);
        WalkAscends(collate, q, kind, rest, next);
        var later := Rows(Walk(collate, q, rest, next));
        var end := page.data[|page.data| - 1];
        assert end in page.data;
        forall row | row in later
          ensures OfKind(Field(row, q.sortBy), kind) && Compare(collate, q, KeyOf(end, q), KeyOf(row, q)) < 0
          ensures After(collate, q, cursor, row)
        {
          WalkReadsSnapshots(collate, q, kind, rest, next, row);
          LaterPageRow(collate, q, kind, cursor, end, row);
        }
        JoinAscends(collate, q, kind, page.data, later);
        assert Rows([page] + Walk(collate, q, rest, next)) == page.data + later;
      }
    }
  }

  lemma RowAfterCursor(collate: Collation, q: Query, kind: Kind, row: Row, later: Row)
    requires Collates(collate) && OfKind(Field(row, q.sortBy), kind) && OfKind(Field(later, q.sortBy), kind)
    requires Compare(collate, q, CursorOf(row, q), KeyOf(later, q)) < 0
    ensures Compare(collate, q, KeyOf(row, q), KeyOf(later, q)) < 0
  {
    hide Collates, Compare;
    CursorStandsForRow(collate, q, kind, KeyOf(later, q), row);
    CompareAntisymmetric(collate, q, kind, KeyOf(row, q), KeyOf(later, q));
    CompareAntisymmetric(collate, q, kind, CursorOf(row, q), KeyOf(later, q));
  }

  lemma JoinAscends(collate: Collation, q: Query, kind: Kind, a: seq<Row>, b: seq<Row>)
    requires Collates(collate) && AllOfKind(q, kind, a) && AllOfKind(q, kind, b)
    requires Ascending(collate, q, a) && Ascending(collate, q, b) && a != []
    requires forall row :: row in b ==> Compare(collate, q, KeyOf(a[|a| - 1], q), KeyOf(row, q)) < 0
    ensures Ascending(collate, q, a + b)
  {
    hide Collates, Compare;
    forall i, j | 0 <= i < |a| && 0 <= j < |b|
      ensures Compare(collate, q, KeyOf(a[i], q), KeyOf(b[j], q)) < 0
    {
      if i < |a| - 1 {
        CompareTransitive(collate, q, kind, KeyOf(a[i], q), KeyOf(a[|a| - 1], q), KeyOf(b[j], q));
      }
    }
  }

  /** No row is returned twice. */
  lemma WalkNeverRepeats(collate: Collation, q: Query, kind: Kind, snapshots: seq<seq<Row>>)
    requires Collates(collate) && AllSortable(collate, q, kind, snapshots) && Steady(q, snapshots) && q.limit >= 1
    ensures var rows := Rows(Walk(collate, q, snapshots, Absent));
            forall i, j :: 0 <= i < j < |rows| ==> rows[i].id != rows[j].id
  {
    hide Collates, Compare, Walk;
    WalkAscends(collate, q, kind, snapshots, Absent);
    var rows := Rows(Walk(collate, q, snapshots, Absent));
    forall i, j | 0 <= i < j < |rows|
      ensures rows[i].id != rows[j].id
    {
      WalkReadsSnapshots(collate, q, kind, snapshots, Absent, rows[i]);
      WalkReadsSnapshots(collate, q, kind, snapshots, Absent, rows[j]);
      CompareAntisymmetric(collate, q, kind, KeyOf(rows[i], q), KeyOf(rows[i], q));
    }
  }

  lemma {:induction false} WalkReaches(collate: Collation, q: Query, kind: Kind, snapshots: seq<seq<Row>>,
      cursor: Cursor, id: string)
    requires Collates(collate) && AllSortable(collate, q, kind, snapshots) && Steady(q, snapshots)
    requires CursorOfKind(kind, cursor) && q.limit >= 1
    requires Finished(Walk(collate, q, snapshots, cursor))
    requires forall i :: 0 <= i < |Walk(collate, q, snapshots, cursor)| ==> Has(snapshots[i], id)
    requires forall row :: row in snapshots[0] && row.id == id ==> After(collate, q, cursor, row)
    ensures Has(Rows(Walk(collate, q, snapshots, cursor)), id)
  {
    hide Collates, Compare, Paginate, Walk, Rows, AllSortable, Steady;
    WalkUnfolds(collate, q, snapshots, cursor);
    var pages, page := Walk(collate, q, snapshots, cursor), Paginate(collate, q, snapshots[0], cursor);
    AtFirst(collate, q, kind, snapshots);
    PaginateIsNextPage(collate, q, kind, snapshots[0], cursor);
    assert Has(snapshots[0], id);
    var row :| row in snapshots[0] && row.id == id;
    var rest := snapshots[1..];
    if page.next.None? {
      RowsHead(page, []);
      assert [page] + [] == [page] && row in Rows(pages);
    } else {
      var next := At(page.next.value);
      var tail := Walk(collate, q, rest, next);
      RowsHead(page, tail);
      if row !in page.data {
        forall i | 0 <= i < |tail|
          ensures Has(rest[i], id)
        {
          assert pages[i + 1] == tail[i] && Has(snapshots[i + 1], id);
        }
        WalkUnfolds(collate, q, rest, next);
        StillAhead(collate, q, kind, snapshots, next, row);
        SteadyTail(q, snapshots);
        WalkReaches(collate, q, kind, rest, next, id);
        var found :| found in Rows(tail) && found.id == id;
        assert found in Rows(pages);
      }
    }
  }

  lemma WalkUnfolds(collate: Collation, q: Query, snapshots: seq<seq<Row>>, cursor: Cursor)
    ensures snapshots == [] ==> Walk(collate, q, snapshots, cursor) == []
    ensures snapshots != [] ==>
              var page := Paginate(collate, q, snapshots[0], cursor);
              Walk(collate, q, snapshots, cursor) ==
              if page.next.None? then [page] else [page] + Walk(collate, q, snapshots[1..], At(page.next.value))
  {
  }

  lemma AtFirst(collate: Collation, q: Query, kind: Kind, snapshots: seq<seq<Row>>)
    requires AllSortable(collate, q, kind, snapshots) && snapshots != []
    ensures Sortable(collate, q, kind, snapshots[0]) && AllSortable(collate, q, kind, snapshots[1..])
  {
  }

  /** A row the page stopped short of keeps its key, and so stays ahead of the cursor. */
  lemma StillAhead(collate: Collation, q: Query, kind: Kind, snapshots: seq<seq<Row>>, next: Cursor, row: Row)
    requires |snapshots| >= 2 && Steady(q, snapshots) && row in snapshots[0] && After(collate, q, next, row)
    ensures forall later :: later in snapshots[1] && later.id == row.id ==> After(collate, q, next, later)
  {
    hide Compare;
    forall later | later in snapshots[1] && later.id == row.id
      ensures After(collate, q, next, later)
    {
      assert KeyOf(later, q) == KeyOf(row, q);
    }
  }

  lemma SteadyTail(q: Query, snapshots: seq<seq<Row>>)
    requires Steady(q, snapshots) && snapshots != []
    ensures Steady(q, snapshots[1..])
  {
    assert forall i :: 0 <= i < |snapshots| - 1 ==> snapshots[1..][i] == snapshots[i + 1];
  }

  /** A finished walk has returned every row that was there in all the snapshots it read. */
  lemma WalkMissesNothing(collate: Collation, q: Query, kind: Kind, snapshots: seq<seq<Row>>, id: string)
    requires Collates(collate) && AllSortable(collate, q, kind, snapshots) && Steady(q, snapshots) && q.limit >= 1
    requires var pages := Walk(collate, q, snapshots, Absent);
             Finished(pages) && forall i :: 0 <= i < |pages| ==> Has(snapshots[i], id)
    ensures Has(Rows(Walk(collate, q, snapshots, Absent)), id)
  {
    WalkReaches(collate, q, kind, snapshots, Absent, id);
  }

  // ----- a table nobody changes -----

  /** One page for at most `limit` rows (none included), and one more for each `limit` rows beyond. */
  function PageCount(rows: nat, limit: nat): (count: nat)
    requires limit >= 1
    ensures count >= 1
  {
    if rows <= limit then 1 else 1 + PageCount(rows - limit, limit)
  }

  /** The page count is ceil(rows / limit), except that an empty table still takes one page. */
  lemma {:induction false} PageCountIsCeiling(rows: nat, limit: nat)
    requires limit >= 1
    ensures rows <= PageCount(rows, limit) * limit
    ensures rows > 0 ==> (PageCount(rows, limit) - 1) * limit < rows
  {
    if rows > limit {
      PageCountIsCeiling(rows - limit, limit);
    }
  }

  lemma WalkOnce(collate: Collation, q: Query, items: seq<Row>, times: nat, cursor: Cursor, page: Page)
    requires times >= 1 && page == Paginate(collate, q, items, cursor) && page.next.Some?
    ensures var rest := Walk(collate, q, Repeat(items, times - 1), At(page.next.value));
            && Walk(collate, q, Repeat(items, times), cursor) == [page] + rest
            && Rows([page] + rest) == page.data + Rows(rest)
  {
    hide Paginate;
    assert Repeat(items, times)[1..] == Repeat(items, times - 1);
  }

  lemma WalkEnds(collate: Collation, q: Query, items: seq<Row>, times: nat, cursor: Cursor, page: Page)
    requires times >= 1 && page == Paginate(collate, q, items, cursor) && page.next.None?
    ensures Walk(collate, q, Repeat(items, times), cursor) == [page] && Rows([page]) == page.data
  {
    hide Paginate;
    assert Repeat(items, times)[0] == items;
  }

  lemma {:induction false} StillWalkFrom(collate: Collation, q: Query, kind: Kind, items: seq<Row>, times: nat,
      start: nat, cursor: Cursor)
    requires Collates(collate) && Sortable(collate, q, kind, items) && CursorOfKind(kind, cursor) && q.limit >= 1
    requires start <= |items| && StartIndex(collate, q, Sort(collate, q, items), cursor) == start
    requires times >= PageCount(|items| - start, q.limit)
    ensures var pages := Walk(collate, q, Repeat(items, times), cursor);
            && Finished(pages) && |pages| == PageCount(|items| - start, q.limit)
            && Rows(pages) == Sort(collate, q, items)[start..]
    decreases |items| - start
  {
    hide Collates, Compare, Paginate, StartIndex, Sortable, Sort, IsNextPage, After, Walk, Rows, Repeat;
    var sorted, from, end := PageIsSlice(collate, q, items, cursor);
    var page := Paginate(collate, q, items, cursor);
    if page.next.None? {
      WalkEnds(collate, q, items, times, cursor, page);
    } else {
      PaginateIsNextPage(collate, q, kind, items, cursor);
      var next := At(page.next.value);
      NextStart(collate, q, kind, items, end, next);
      StillWalkFrom(collate, q, kind, items, times - 1, end, next);
      WalkOnce(collate, q, items, times, cursor, page);
      assert sorted[start..] == sorted[start..end] + sorted[end..];
    }
  }

  lemma NextStart(collate: Collation, q: Query, kind: Kind, items: seq<Row>, end: nat, next: Cursor)
    requires Collates(collate) && Sortable(collate, q, kind, items)
    requires 1 <= end <= |items| && next == At(CursorOf(Sort(collate, q, items)[end - 1], q))
    ensures StartIndex(collate, q, Sort(collate, q, items), next) == end
  {
    hide Collates, Compare;
    var sorted := Sort(collate, q, items);
    SortAscends(collate, q, kind, items);
    var row := sorted[end - 1];
    assert row in sorted;
    CursorStandsForRow(collate, q, kind, next.key, row);
    StartSplits(collate, q, kind, sorted, next);
    CompareAntisymmetric(collate, q, kind, next.key, KeyOf(row, q));
    CursorStandsForRow(collate, q, kind, KeyOf(row, q), row);
    CompareAntisymmetric(collate, q, kind, KeyOf(row, q), KeyOf(row, q));
    assert !After(collate, q, next, row);
    if end < |sorted| {
      assert sorted[end] in sorted;
      CursorBeforeLater(collate, q, kind, row, sorted[end]);
      assert After(collate, q, next, sorted[end]);
    }
  }

  /**
   With no changes the pages join to exactly the sorted table, in ceil(n / limit) pages - one empty page for an empty
   table.
   */
  lemma StillWalk(collate: Collation, q: Query, kind: Kind, items: seq<Row>, times: nat)
    requires Collates(collate) && Sortable(collate, q, kind, items) && q.limit >= 1
    requires times >= PageCount(|items|, q.limit)
    ensures var pages := Walk(collate, q, Repeat(items, times), Absent);
            && Finished(pages) && |pages| == PageCount(|items|, q.limit)
            && Rows(pages) == Sort(collate, q, items)
  {
    hide Walk, Rows, Sort, Collates, Sortable, Repeat, Finished;
    StillWalkFrom(collate, q, kind, items, times, 0, Absent);
    assert Sort(collate, q, items)[0..] == Sort(collate, q, items);
  }

  // ----- a column the rows do not have -----

  /** Every row lacks the sort column, so a cursor carries null where its row has nothing. */
  ghost predicate Lacking(q: Query, items: seq<Row>) {
    forall row :: row in items ==> Field(row, q.sortBy) == Undefined
  }

  /** The text of null comes before the text of a missing value, as it does in every locale that orders by letter. */
  predicate NullFirst(collate: Collation) { collate(TextOf(Null), TextOf(Undefined)) < 0 }

  lemma LackingStart(collate: Collation, q: Query, items: seq<Row>, cursor: Cursor)
    requires Collates(collate) && NullFirst(collate) && Lacking(q, items)
    requires cursor.At? && cursor.key.value == Null
    ensures var sorted := Sort(collate, q, items);
            StartIndex(collate, q, sorted, cursor) == if q.ascending then 0 else |sorted|
  {
    var sorted := Sort(collate, q, items);
    SameRows(items, sorted);
    forall i | 0 <= i < |sorted|
      ensures Compare(collate, q, KeyOf(sorted[i], q), cursor.key) > 0 <==> q.ascending
    {
      assert sorted[i] in items;
    }
    hide Sort, Compare, Collates;
  }

  lemma LackingCursor(collate: Collation, q: Query, items: seq<Row>, cursor: Cursor)
    requires Lacking(q, items) && q.limit >= 1
    ensures var page := Paginate(collate, q, items, cursor); page.next.Some? ==> page.next.value.value == Null
  {
    hide Compare, Sort, StartIndex;
    var sorted, start, end := PageIsSlice(collate, q, items, cursor);
    SameRows(items, sorted);
    if end < |sorted| {
      assert sorted[end - 1] in items;
    }
    hide Paginate;
  }

  /** What the second page is, once the first one has a successor. */
  lemma LackingSecondPage(collate: Collation, q: Query, items: seq<Row>)
    requires Collates(collate) && NullFirst(collate) && Lacking(q, items) && 1 <= q.limit < |items|
    ensures var first := Paginate(collate, q, items, Absent);
            && first.next.Some? && first.data == Sort(collate, q, items)[..q.limit]
            && Paginate(collate, q, items, At(first.next.value)) == if q.ascending then first else Page([], None, false)
  {
    hide Paginate, Sort, Compare, Collates, NullFirst, Lacking;
    var first := Paginate(collate, q, items, Absent);
    var sorted, start, end := PageIsSlice(collate, q, items, Absent);
    LackingCursor(collate, q, items, Absent);
    LackingStart(collate, q, items, At(first.next.value));
    var again, restart, stop := PageIsSlice(collate, q, items, At(first.next.value));
    assert again == sorted && sorted[|sorted|..] == [];
  }

  /** Ascending, the walk reads its first page again for as long as it is followed. */
  lemma {:induction false} LackingRepeats(collate: Collation, q: Query, items: seq<Row>, times: nat, cursor: Cursor)
    requires Collates(collate) && NullFirst(collate) && Lacking(q, items) && 1 <= q.limit < |items| && q.ascending
    requires Paginate(collate, q, items, cursor) == Paginate(collate, q, items, Absent)
    ensures Walk(collate, q, Repeat(items, times), cursor) == Repeat(Paginate(collate, q, items, Absent), times)
  {
    hide Paginate, Collates, Sort, Walk, Rows, NullFirst, Lacking;
    var first := Paginate(collate, q, items, Absent);
    LackingSecondPage(collate, q, items);
    if times == 0 {
      assert Repeat(items, 0) == [];
      assert Walk(collate, q, Repeat(items, 0), cursor) == [] == Repeat(first, 0);
    } else {
      LackingRepeats(collate, q, items, times - 1, At(first.next.value));
      WalkOnce(collate, q, items, times, cursor, first);
      assert [first] + Repeat(first, times - 1) == Repeat(first, times);
    }
  }

  lemma LackingEnds(collate: Collation, q: Query, items: seq<Row>, times: nat)
    requires Collates(collate) && NullFirst(collate) && Lacking(q, items) && 1 <= q.limit < |items| && !q.ascending &&
             times >= 2
    ensures var first := Paginate(collate, q, items, Absent);
            var pages := Walk(collate, q, Repeat(items, times), Absent);
            pages == [first, Page([], None, false)] && Rows(pages) == first.data
  {
    hide Paginate, Collates, Sort, Walk, Rows, NullFirst, Lacking;
    var first, empty := Paginate(collate, q, items, Absent), Page([], None, false);
    LackingSecondPage(collate, q, items);
    WalkEnds(collate, q, items, times - 1, At(first.next.value), empty);
    WalkOnce(collate, q, items, times, Absent, first);
    assert [first] + [empty] == [first, empty] && first.data + [] == first.data;
  }

  /**
   How a walk sorted by a column that no row has goes: one full page, the first page for ever, or the first page and
   an empty one.
   */
  lemma MissingColumnWalk(collate: Collation, q: Query, items: seq<Row>, times: nat)
    requires Collates(collate) && NullFirst(collate) && Lacking(q, items) && q.limit >= 1 && times >= 2
    ensures var first := Paginate(collate, q, items, Absent);
            Walk(collate, q, Repeat(items, times), Absent) ==
            if |items| <= q.limit then [first]
            else if q.ascending then Repeat(first, times)
            else [first, Page([], None, false)]
  {
    var first := Paginate(collate, q, items, Absent);
    if |items| <= q.limit {
      var sorted, start, end := PageIsSlice(collate, q, items, Absent);
      hide Paginate, Collates, Sort;
      WalkEnds(collate, q, items, times, Absent, first);
    } else if q.ascending {
      LackingRepeats(collate, q, items, times, Absent);
    } else {
      LackingEnds(collate, q, items, times);
    }
  }

  /** Sorted by a column that no row has, the walk is exact if and only if one page holds the whole table. */
  lemma MissingColumnIsExactIff(collate: Collation, q: Query, items: seq<Row>, times: nat)
    requires Collates(collate) && NullFirst(collate) && Lacking(q, items) && q.limit >= 1 && times >= 2
    ensures var pages := Walk(collate, q, Repeat(items, times), Absent);
            Finished(pages) && Rows(pages) == Sort(collate, q, items) <==> |items| <= q.limit
  {
    hide Walk, Rows, Collates, Sort, Paginate, Lacking, NullFirst;
    var first, empty := Paginate(collate, q, items, Absent), Page([], None, false);
    MissingColumnWalk(collate, q, items, times);
    var sorted, start, end := PageIsSlice(collate, q, items, Absent);
    if |items| <= q.limit {
      RowsHead(first, []);
      assert [first] + [] == [first] && sorted[start..end] == sorted;
    } else if q.ascending {
      assert Repeat(first, times)[times - 1] == first;
    } else {
      RowsHead(first, [empty]);
      RowsHead(empty, []);
      assert [first] + [empty] == [first, empty] && [empty] + [] == [empty];
    }
  }

  lemma RowsHead(page: Page, rest: seq<Page>)
    ensures Rows([]) == [] && Rows([page] + rest) == page.data + Rows(rest)
  {
  }
}
