/** Ordered recall over the graph backend (internal/store ladybug_ops): what the query returns, and
    exactly when that is what a scan of the documents gives. */
module GraphOrder {
  import opened Options
  import opened Structured
  import opened Graph
  import Sorting
  import Text

  // ---------- Ordered recall ----------

  /** No two ordinals share an id. */
  ghost predicate OrdinalsApart(docs: seq<Doc>) {
    forall d, f, e, g :: d in docs && f in d.ordered && e in docs && g in e.ordered && Id(f, d.ref.path) == Id(g, e.ref.path) ==> f == g
  }

  /** A bar in a field's name is what could make two share one. */
  lemma NoBarsKeepApart(docs: seq<Doc>)
    requires forall d, f :: d in docs && f in d.ordered ==> '|' !in f
    ensures OrdinalsApart(docs)
  {
    forall d, f, e, g | d in docs && f in d.ordered && e in docs && g in e.ordered && Id(f, d.ref.path) == Id(g, e.ref.path)
      ensures f == g
    {
      HeadIsField(f, d.ref.path);
      HeadIsField(g, e.ref.path);
    }
  }

  /** What precedes the first bar. */
  function HeadOf(id: string): string {
    if id == "" || id[0] == '|' then "" else [id[0]] + HeadOf(id[1..])
  }

  lemma {:induction false} HeadIsField(f: string, p: string)
    requires '|' !in f
    ensures HeadOf(Id(f, p)) == f
  {
    if f != "" {
      HeadIsField(f[1..], p);
      assert Id(f, p)[1..] == Id(f[1..], p);
    }
  }

  lemma {:induction false} OrdinalIsDocs(docs: seq<Doc>, d: Doc, f: string)
    requires DistinctPaths(docs) && OrdinalsApart(docs) && d in docs && f in d.ordered
    ensures OrdinalOf(docs, Id(f, d.ref.path)) == Some(Ordinal(f, d.ordered[f]))
  {
    var last := |docs| - 1;
    var id := Id(f, d.ref.path);
    IdNamesField(id, f, d.ref.path);
    var own := OrdinalIn(docs[last], id);
    if own.Some? {
      var g := own.value.field;
      IdNamesField(id, g, docs[last].ref.path);
      assert f == g;
      SameIdSamePath(f, d.ref.path, docs[last].ref.path);
    } else {
      assert docs == docs[..last] + [docs[last]];
      OrdinalIsDocs(docs[..last], d, f);
    }
  }

  lemma SameIdSamePath(f: string, p: string, q: string)
    requires Id(f, p) == Id(f, q)
    ensures p == q
  {
    assert Id(f, p)[|f| + 1..] == p && Id(f, q)[|f| + 1..] == q;
  }

  function EntryAt(t: Tables, e: Edge): Entry {
    Entry(DocRef(e.path, At(t.titles, e.path).GetOr("")), if e.id in t.ordinals then t.ordinals[e.id].key else 0.0)
  }

  function Entries(t: Tables, rows: seq<Edge>): (r: seq<Entry>)
    ensures |r| == |rows| && forall i :: 0 <= i < |r| ==> r[i] == EntryAt(t, rows[i])
  {
    seq(|rows|, i requires 0 <= i < |rows| => EntryAt(t, rows[i]))
  }

  /** The matching edges are one for each document that carries the field, with its key. */
  lemma MatchNamesCarrier(t: Tables, docs: seq<Doc>, field: string, e: Edge) returns (d: Doc)
    requires OrderAgrees(t, docs) && DistinctPaths(docs) && OrdinalsApart(docs) && e in OrderMatches(t, field)
    ensures d in docs && field in d.ordered && e == Edge(d.ref.path, Id(field, d.ref.path))
    ensures EntryAt(t, e) == Entry(d.ref, d.ordered[field])
  {
    assert e in t.hasOrder <==> Placed(docs, e);
    d :| d in docs && d.ref.path == e.path && OrdinalIn(d, e.id).Some?;
    var f := OrdinalIn(d, e.id).value.field;
    IdNamesField(e.id, f, d.ref.path);
    OrdinalIsDocs(docs, d, f);
    assert At(t.ordinals, e.id) == OrdinalOf(docs, e.id) && At(t.titles, e.path) == TitleOf(docs, e.path);
    TitleIsDocs(docs, d);
  }

  lemma CarrierIsMatched(t: Tables, docs: seq<Doc>, field: string, d: Doc)
    requires OrderAgrees(t, docs) && DistinctPaths(docs) && OrdinalsApart(docs) && d in docs && field in d.ordered
    ensures var e := Edge(d.ref.path, Id(field, d.ref.path));
      e in OrderMatches(t, field) && EntryAt(t, e) == Entry(d.ref, d.ordered[field])
  {
    var e := Edge(d.ref.path, Id(field, d.ref.path));
    IdNamesField(e.id, field, d.ref.path);
    OrdinalIsDocs(docs, d, field);
    TitleIsDocs(docs, d);
    assert At(t.ordinals, e.id) == OrdinalOf(docs, e.id) && At(t.titles, e.path) == TitleOf(docs, e.path);
    assert Placed(docs, e);
  }

  lemma {:induction false} CarrierMembers(docs: seq<Doc>, field: string)
    ensures forall d :: d in docs && field in d.ordered ==> Entry(d.ref, d.ordered[field]) in Carriers(docs, field)
  {
    if docs != [] {
      var last := |docs| - 1;
      CarrierMembers(docs[..last], field);
      assert docs == docs[..last] + [docs[last]];
    }
  }

  lemma EntriesAreCarriers(t: Tables, docs: seq<Doc>, field: string, rows: seq<Edge>)
    requires OrderAgrees(t, docs) && DistinctPaths(docs) && OrdinalsApart(docs)
    requires Sorting.Distinct(rows) && forall e :: e in rows <==> e in OrderMatches(t, field)
    ensures PathsApart(Entries(t, rows)) && multiset(Entries(t, rows)) == multiset(Carriers(docs, field))
  {
    var out := Entries(t, rows);
    CarrierMembers(docs, field);
    CarriersAreDistinct(docs, field);
    forall i, j | 0 <= i < j < |out| ensures OtherPath(out[i], out[j]) {
      assert rows[i] in rows && rows[j] in rows && rows[i] != rows[j];
      var d := MatchNamesCarrier(t, docs, field, rows[i]);
      var e := MatchNamesCarrier(t, docs, field, rows[j]);
    }
    forall x ensures x in out <==> x in Carriers(docs, field) {
      if x in out {
        var k :| 0 <= k < |out| && out[k] == x;
        assert rows[k] in rows;
        var d := MatchNamesCarrier(t, docs, field, rows[k]);
      }
      if x in Carriers(docs, field) {
        var d :| d in docs && d.ref == x.ref && field in d.ordered && d.ordered[field] == x.key;
        CarrierIsMatched(t, docs, field, d);
        var e := Edge(d.ref.path, Id(field, d.ref.path));
        var k :| 0 <= k < |rows| && rows[k] == e;
        assert out[k] == x;
      }
    }
    Sorting.SameMembers(out, Carriers(docs, field));
  }

  /** What the ordered query may return: the matching edges, each once, by key in the direction and then
      by path. */
  ghost predicate Recalled(t: Tables, field: string, dir: Direction, rows: seq<Edge>) {
    && Sorting.Distinct(rows) && (forall e :: e in rows <==> e in OrderMatches(t, field))
    && forall i, j :: 0 <= i < j < |rows| ==> Sorting.AtMost(DirLess(dir), EntryAt(t, rows[i]), EntryAt(t, rows[j]))
  }

  function RowLess(t: Tables, dir: Direction): (Edge, Edge) -> bool {
    (a: Edge, b: Edge) => DirLess(dir)(EntryAt(t, a), EntryAt(t, b))
  }

  lemma SortRecalls(t: Tables, field: string, dir: Direction, rows: seq<Edge>)
    requires Sorting.Distinct(rows) && forall e :: e in rows <==> e in OrderMatches(t, field)
    ensures Recalled(t, field, dir, Sorting.StableSort(rows, RowLess(t, dir)))
  {
    var less := RowLess(t, dir);
    DirLessOrders(dir);
    forall x, y | less(x, y) ensures Sorting.AtMost(less, x, y) {
      assert Sorting.AtMost(DirLess(dir), EntryAt(t, x), EntryAt(t, y));
    }
    forall x, y, z | Sorting.AtMost(less, x, y) && Sorting.AtMost(less, y, z) ensures Sorting.AtMost(less, x, z) {
      assert Sorting.AtMost(DirLess(dir), EntryAt(t, x), EntryAt(t, y)) && Sorting.AtMost(DirLess(dir), EntryAt(t, y), EntryAt(t, z));
    }
    var before := (a: Edge, b: Edge) => true;
    Sorting.StableSortOrdered(rows, less, before);
    var s := Sorting.StableSort(rows, less);
    assert forall e :: e in s <==> e in multiset(s);
    assert forall e :: e in rows <==> e in multiset(rows);
    forall i, j | 0 <= i < j < |s| ensures s[i] != s[j] && Sorting.AtMost(DirLess(dir), EntryAt(t, s[i]), EntryAt(t, s[j])) {
      Sorting.SameMembersApart(s, rows, i, j);
      assert Sorting.InOrder(less, before, s[i], s[j]);
      assert Sorting.AtMost(less, s[i], s[j]);
    }
  }

  lemma RecallIsScan(t: Tables, docs: seq<Doc>, field: string, dir: Direction, rows: seq<Edge>)
    requires OrderAgrees(t, docs) && DistinctPaths(docs) && OrdinalsApart(docs) && Recalled(t, field, dir, rows)
    ensures forall limit :: Capped(Refs(Entries(t, rows)), limit) == OrderedScan(docs, field, dir, limit)
  {
    var entries, sorted := Entries(t, rows), Sorting.StableSort(Carriers(docs, field), DirLess(dir));
    EntriesAreCarriers(t, docs, field, rows);
    CarriersSortStrictly(docs, field, dir);
    DirLessOrders(dir);
    forall i, j | 0 <= i < j < |entries| ensures DirLess(dir)(entries[i], entries[j]) {
      assert OtherPath(entries[i], entries[j]) && Sorting.AtMost(DirLess(dir), EntryAt(t, rows[i]), EntryAt(t, rows[j]));
      Text.LessTotal(entries[i].ref.path, entries[j].ref.path);
    }
    Sorting.AscendingUnique(entries, sorted, DirLess(dir));
  }

  predicate Blank(s: string, space: char -> bool) {
    Text.Trim(s, space) == ""
  }

  /** Ordered over the graph: the database sorts and caps, and with ordinals apart that is the sorted
      scan. A blank field names nothing. */
  method Ordered(norm: string -> string, space: char -> bool, t: Tables, ghost docs: seq<Doc>, field: string, dir: Direction, limit: int)
    returns (out: seq<DocRef>)
    requires Agrees(norm, t, docs) && DistinctPaths(docs)
    ensures Blank(field, space) ==> out == []
    ensures !Blank(field, space) ==> exists rows :: Recalled(t, field, dir, rows) && out == Capped(Refs(Entries(t, rows)), limit)
    ensures !Blank(field, space) && OrdinalsApart(docs) ==> out == OrderedScan(docs, field, dir, limit)
  {
    if Blank(field, space) {
      return [];
    }
    var rows := Rows(OrderMatches(t, field));
    SortRecalls(t, field, dir, rows);
    rows := Sorting.StableSort(rows, RowLess(t, dir));
    if OrdinalsApart(docs) {
      RecallIsScan(t, docs, field, dir, rows);
    }
    out := Capped(Refs(Entries(t, rows)), limit);
  }

  // ---------- When ordinals share an id ----------

  /** The same documents but for the values of their fields. */
  ghost predicate Rekeyed(docs: seq<Doc>, other: seq<Doc>) {
    && |docs| == |other|
    && forall i :: 0 <= i < |docs| ==> other[i] == docs[i].(ordered := other[i].ordered) && other[i].ordered.Keys == docs[i].ordered.Keys
  }

  /** Every answer the database may give to the query is the sorted scan. */
  ghost predicate AnsweredAsScanned(docs: seq<Doc>, field: string, dir: Direction) {
    forall t, rows :: OrderAgrees(t, docs) && Recalled(t, field, dir, rows) ==> Refs(Entries(t, rows)) == OrderedScan(docs, field, dir, 0)
  }

  lemma {:induction false} WinnerOf(docs: seq<Doc>, id: string) returns (w: Doc)
    requires OrdinalOf(docs, id).Some?
    ensures w in docs && OrdinalIn(w, id) == OrdinalOf(docs, id)
  {
    var last := |docs| - 1;
    if OrdinalIn(docs[last], id).Some? {
      w := docs[last];
    } else {
      w := WinnerOf(docs[..last], id);
    }
  }

  lemma {:induction false} TitledBy(docs: seq<Doc>, path: string) returns (d: Doc)
    requires TitleOf(docs, path).Some?
    ensures d in docs && d.ref.path == path
  {
    var last := |docs| - 1;
    if docs[last].ref.path == path {
      d := docs[last];
    } else {
      d := TitledBy(docs[..last], path);
    }
  }

  /** The tables an ordered query reads, made from the documents at once. */
  ghost function OrderTables(docs: seq<Doc>): Tables {
    var paths := set d | d in docs :: d.ref.path;
    var places := set d, f | d in docs && f in d.ordered :: Edge(d.ref.path, Id(f, d.ref.path));
    EMPTY.(titles := map path | path in paths :: TitleOf(docs, path).GetOr(""),
           ordinals := map id | id in (set e | e in places :: e.id) :: OrdinalOf(docs, id).GetOr(Ordinal("", 0.0)),
           hasOrder := places)
  }

  lemma OrderTablesAgree(docs: seq<Doc>)
    ensures OrderAgrees(OrderTables(docs), docs)
  {
    var t := OrderTables(docs);
    forall path ensures At(t.titles, path) == TitleOf(docs, path) {
      if TitleOf(docs, path).Some? {
        var d := TitledBy(docs, path);
      } else if path in t.titles {
        var d :| d in docs && d.ref.path == path;
        TitledDocs(docs, d);
      }
    }
    forall e ensures e in t.hasOrder <==> Placed(docs, e) {
      if e in t.hasOrder {
        var d, f :| d in docs && f in d.ordered && e == Edge(d.ref.path, Id(f, d.ref.path));
        IdNamesField(e.id, f, d.ref.path);
      } else if Placed(docs, e) {
        var d :| d in docs && d.ref.path == e.path && OrdinalIn(d, e.id).Some?;
        IdNamesField(e.id, OrdinalIn(d, e.id).value.field, d.ref.path);
      }
    }
    forall id ensures At(t.ordinals, id) == OrdinalOf(docs, id) {
      if OrdinalOf(docs, id).Some? {
        var d := WinnerOf(docs, id);
        IdNamesField(id, OrdinalIn(d, id).value.field, d.ref.path);
        assert Edge(d.ref.path, id) in t.hasOrder;
      } else if id in t.ordinals {
        var e :| e in t.hasOrder && e.id == id;
        var d :| d in docs && d.ref.path == e.path && OrdinalIn(d, id).Some?;
        OrdinalsPlaced(docs, d, id);
      }
    }
  }

  /** Values of 0 but for one field of one document. */
  function Rekey(docs: seq<Doc>, path: string, field: string): (r: seq<Doc>)
    ensures Rekeyed(docs, r)
    ensures forall d, f :: d in r && f in d.ordered ==> d.ordered[f] == if d.ref.path == path && f == field then 1.0 else 0.0
  {
    seq(|docs|, i requires 0 <= i < |docs| =>
      docs[i].(ordered := map f | f in docs[i].ordered :: if docs[i].ref.path == path && f == field then 1.0 else 0.0))
  }

  /** Whose ordinal an id holds does not turn on the values. */
  lemma {:induction false} RekeyedOrdinal(docs: seq<Doc>, other: seq<Doc>, id: string)
    requires Rekeyed(docs, other)
    ensures OrdinalOf(docs, id).Some? <==> OrdinalOf(other, id).Some?
    ensures OrdinalOf(docs, id).Some? ==> OrdinalOf(docs, id).value.field == OrdinalOf(other, id).value.field
  {
    if docs != [] {
      var last := |docs| - 1;
      assert other[last].ordered.Keys == docs[last].ordered.Keys;
      RekeyedOrdinal(docs[..last], other[..last], id);
    }
  }

  /** `e` is matched for the field its ordinal is of. */
  lemma PlacedIsMatched(t: Tables, docs: seq<Doc>, d: Doc, id: string)
    requires OrderAgrees(t, docs) && d in docs && OrdinalIn(d, id).Some?
    ensures OrdinalOf(docs, id).Some? && Edge(d.ref.path, id) in OrderMatches(t, OrdinalOf(docs, id).value.field)
  {
    OrdinalsPlaced(docs, d, id);
    TitledDocs(docs, d);
    assert Placed(docs, Edge(d.ref.path, id));
    assert At(t.ordinals, id) == OrdinalOf(docs, id) && At(t.titles, d.ref.path) == TitleOf(docs, d.ref.path);
  }

  ghost predicate KeyedBy(entries: seq<Entry>, path: string) {
    forall k :: 0 <= k < |entries| ==> entries[k].key == if entries[k].ref.path == path then 1.0 else 0.0
  }

  lemma RekeyKeys(docs: seq<Doc>, path: string, field: string, sorted: seq<Entry>)
    requires DistinctPaths(docs) && multiset(sorted) == multiset(Carriers(Rekey(docs, path, field), field))
    ensures KeyedBy(sorted, path)
  {
    CarriersAreDistinct(Rekey(docs, path, field), field);
    forall k | 0 <= k < |sorted| ensures sorted[k].key == if sorted[k].ref.path == path then 1.0 else 0.0 {
      assert sorted[k] in multiset(sorted);
      assert sorted[k] in Carriers(Rekey(docs, path, field), field);
    }
  }

  /** The one greater value sorts behind every other. */
  lemma GreatestIsLast(sorted: seq<Entry>, path: string, i: nat, j: nat)
    requires Sorting.Ascending(sorted, DirLess(Asc)) && KeyedBy(sorted, path)
    requires i < |sorted| && j < |sorted| && sorted[i].ref.path == path && sorted[j].ref.path != path
    ensures j < i
  {
  }

  /** Document `d` wrote an ordinal for field `f` under an id that another document's field holds: with
      suitable values the query for that field then answers otherwise than the scan. */
  lemma ClashShows(docs: seq<Doc>, d: Doc, w: Doc, id: string) returns (other: seq<Doc>, field: string)
    requires DistinctPaths(docs) && d in docs && w in docs
    requires OrdinalIn(d, id).Some? && OrdinalIn(w, id).Some? && OrdinalIn(w, id) == OrdinalOf(docs, id)
    requires OrdinalIn(d, id).value.field != OrdinalIn(w, id).value.field
    ensures Rekeyed(docs, other) && !AnsweredAsScanned(other, field, Asc)
  {
    field := OrdinalIn(w, id).value.field;
    IdNamesField(id, field, w.ref.path);
    IdNamesField(id, OrdinalIn(d, id).value.field, d.ref.path);
    Text.LessTotal(d.ref.path, w.ref.path);
    var x, y := if Text.Less(d.ref.path, w.ref.path) then d else w, if Text.Less(d.ref.path, w.ref.path) then w else d;
    other := Rekey(docs, x.ref.path, field);
    var t := OrderTables(other);
    OrderTablesAgree(other);
    RekeyedOrdinal(docs, other, id);
    var x' := InRekeyed(docs, other, x);
    var y' := InRekeyed(docs, other, y);
    PlacedIsMatched(t, other, x', id);
    PlacedIsMatched(t, other, y', id);
    var rows := SomeRecall(t, field, Asc);
    assert Edge(x.ref.path, id) in rows && Edge(y.ref.path, id) in rows;
    var i :| 0 <= i < |rows| && rows[i] == Edge(x.ref.path, id);
    var j :| 0 <= j < |rows| && rows[j] == Edge(y.ref.path, id);
    SmallerPathFirst(t, field, rows, i, j);
    if Refs(Entries(t, rows)) == OrderedScan(other, field, Asc, 0) {
      var sorted := Sorting.StableSort(Carriers(other, field), DirLess(Asc));
      assert Refs(sorted)[i].path == x.ref.path && Refs(sorted)[j].path == y.ref.path;
      CarriersSortStrictly(other, field, Asc);
      RekeyKeys(docs, x.ref.path, field, sorted);
      GreatestIsLast(sorted, x.ref.path, i, j);
    }
  }

  lemma InRekeyed(docs: seq<Doc>, other: seq<Doc>, d: Doc) returns (d': Doc)
    requires Rekeyed(docs, other) && d in docs
    ensures d' in other && d'.ref == d.ref && d'.ordered.Keys == d.ordered.Keys
  {
    var i :| 0 <= i < |docs| && docs[i] == d;
    d' := other[i];
  }

  lemma {:induction false} Listed(s: set<Edge>) returns (rows: seq<Edge>)
    ensures Sorting.Distinct(rows) && forall e :: e in rows <==> e in s
    decreases |s|
  {
    if s == {} {
      rows := [];
    } else {
      var e :| e in s;
      var rest := Listed(s - {e});
      rows := [e] + rest;
    }
  }

  lemma SomeRecall(t: Tables, field: string, dir: Direction) returns (rows: seq<Edge>)
    ensures Recalled(t, field, dir, rows)
  {
    var listed := Listed(OrderMatches(t, field));
    SortRecalls(t, field, dir, listed);
    rows := Sorting.StableSort(listed, RowLess(t, dir));
  }

  lemma SmallerPathFirst(t: Tables, field: string, rows: seq<Edge>, i: nat, j: nat)
    requires Recalled(t, field, Asc, rows) && i < |rows| && j < |rows|
    requires rows[i].id == rows[j].id && Text.Less(rows[i].path, rows[j].path)
    ensures i < j
  {
    Text.LessAsymmetric(rows[i].path, rows[j].path);
  }

  /** The ordered query answers as the scan does whatever values the documents carry if and only if no
      two of their ordinals share an id. */
  lemma ApartIffAnsweredAsScanned(docs: seq<Doc>)
    requires DistinctPaths(docs)
    ensures OrdinalsApart(docs) <==> forall other, field, dir :: Rekeyed(docs, other) ==> AnsweredAsScanned(other, field, dir)
  {
    if OrdinalsApart(docs) {
      forall other, field, dir | Rekeyed(docs, other) ensures AnsweredAsScanned(other, field, dir) {
        RekeyedApart(docs, other);
        forall t, rows | OrderAgrees(t, other) && Recalled(t, field, dir, rows)
          ensures Refs(Entries(t, rows)) == OrderedScan(other, field, dir, 0)
        {
          RecallIsScan(t, other, field, dir, rows);
          assert Capped(Refs(Entries(t, rows)), 0) == OrderedScan(other, field, dir, 0);
        }
      }
    } else {
      var d, f, e, g :| d in docs && f in d.ordered && e in docs && g in e.ordered && Id(f, d.ref.path) == Id(g, e.ref.path) && f != g;
      var id := Id(f, d.ref.path);
      IdNamesField(id, f, d.ref.path);
      IdNamesField(id, g, e.ref.path);
      OrdinalsPlaced(docs, d, id);
      var w := WinnerOf(docs, id);
      var other, field := ClashShows(docs, if OrdinalIn(w, id).value.field == f then e else d, w, id);
    }
  }

  lemma RekeyedApart(docs: seq<Doc>, other: seq<Doc>)
    requires Rekeyed(docs, other) && DistinctPaths(docs) && OrdinalsApart(docs)
    ensures DistinctPaths(other) && OrdinalsApart(other)
  {
    forall d, f, e, g | d in other && f in d.ordered && e in other && g in e.ordered && Id(f, d.ref.path) == Id(g, e.ref.path)
      ensures f == g
    {
      var i :| 0 <= i < |other| && other[i] == d;
      var j :| 0 <= j < |other| && other[j] == e;
      assert docs[i] in docs && docs[j] in docs;
    }
  }

  function Sharing(): seq<Doc> {
    [Doc(DocRef(['b', '|', 'c'], []), [], map[], [], map[['a'] := 1.0]), Doc(DocRef(['c'], []), [], map[], [], map[['a', '|', 'b'] := 2.0])]
  }

  /** Field "a" of document "b|c" and field "a|b" of document "c" share an id, and the first goes missing
      from its field. */
  lemma SharedOrdinalLosesDocument(t: Tables)
    requires OrderAgrees(t, Sharing())
    ensures DistinctPaths(Sharing()) && !OrdinalsApart(Sharing())
    ensures OrderMatches(t, ['a']) == {} && Carriers(Sharing(), ['a']) != []
  {
    var docs := Sharing();
    var d, e := docs[0], docs[1];
    var f, g := ['a'], ['a', '|', 'b'];
    assert Id(f, d.ref.path) == Id(g, e.ref.path) == ['a', '|', 'b', '|', 'c'];
    assert d in docs && e in docs && f in d.ordered && g in e.ordered && f != g;
    assert docs[..1] == [d] && [d][..0] == [];
    assert Carriers(docs, f) == Carriers([d], f) + EntryIn(e, f);
    assert Carriers([d], f) == Carriers([], f) + EntryIn(d, f);
    forall x | x in t.hasOrder && x.id in t.ordinals ensures t.ordinals[x.id].field != f {
      assert At(t.ordinals, x.id) == OrdinalOf(docs, x.id);
      IdNamesField(x.id, f, d.ref.path);
      IdNamesField(x.id, g, e.ref.path);
      assert OrdinalOf([d], x.id) == OrdinalIn(d, x.id);
    }
  }
}
