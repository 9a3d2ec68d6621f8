/** The graph backend's structured subgraph (internal/store ladybug_ops): the tables a rebuild writes
    row by row, and what they hold of the documents. */
module Graph {
  import opened Options
  import opened Structured
  import Normalize
  import Sorting
  import Text

  datatype ValueRow = ValueRow(dim: string, nk: string)

  datatype Ordinal = Ordinal(field: string, key: real)

  /** An edge from a document, by its path, to a Value or an Ordinal, by its id. */
  datatype Edge = Edge(path: string, id: string)

  datatype Tables = Tables(titles: map<string, string>, aliases: map<string, string>, values: map<string, ValueRow>,
                           ordinals: map<string, Ordinal>, hasValue: set<Edge>, hasOrder: set<Edge>)

  const EMPTY := Tables(map[], map[], map[], map[], {}, {})

  // ---------- Ids ----------

  function Id(prefix: string, suffix: string): string {
    prefix + "|" + suffix
  }

  /** normalizeKey lets no bar through. */
  ghost predicate NoBars(norm: string -> string) {
    forall s: string :: '|' !in norm(s)
  }

  lemma NormalizedKeysHoldNoBar(u: Normalize.Unicode)
    requires Normalize.Lawful(u)
    ensures NoBars(Normalize.Keying(u))
  {
    forall s: string ensures '|' !in Normalize.Keying(u)(s) {
      Normalize.CollapsedIsCanonical(u, Text.Trim(Normalize.Folded(u, u.nfkc(s)), u.space));
    }
  }

  /** What follows the last bar, and what precedes it. */
  function NkOf(id: string): string {
    if id == "" || id[|id| - 1] == '|' then "" else NkOf(id[..|id| - 1]) + [id[|id| - 1]]
  }

  function DimOf(id: string): string {
    if id == "" then "" else if id[|id| - 1] == '|' then id[..|id| - 1] else DimOf(id[..|id| - 1])
  }

  /** A value's id names its dimension and its key, because no key holds a bar. */
  lemma {:induction false} IdNamesValue(dim: string, nk: string)
    requires '|' !in nk
    ensures DimOf(Id(dim, nk)) == dim && NkOf(Id(dim, nk)) == nk
  {
    var id := Id(dim, nk);
    if nk == "" {
      assert id[..|id| - 1] == dim;
    } else {
      var front := nk[..|nk| - 1];
      assert id[..|id| - 1] == Id(dim, front);
      IdNamesValue(dim, front);
      assert nk == front + [nk[|nk| - 1]];
    }
  }

  /** The field of an ordinal id, given the path it ends in. */
  function FieldOf(id: string, path: string): Option<string> {
    var n := |id| - |path| - 1;
    if n >= 0 && id[n..] == "|" + path then Some(id[..n]) else None
  }

  lemma IdNamesField(id: string, field: string, path: string)
    ensures FieldOf(id, path) == Some(field) <==> id == Id(field, path)
  {
    var n := |id| - |path| - 1;
    if FieldOf(id, path) == Some(field) {
      assert id == id[..n] + id[n..];
      assert field + ("|" + path) == Id(field, path);
    }
    if id == Id(field, path) {
      assert id[n..] == "|" + path && id[..n] == field;
    }
  }

  // ---------- What the tables hold ----------

  function TitleOf(docs: seq<Doc>, path: string): Option<string> {
    if docs == [] then None
    else
      var last := |docs| - 1;
      if docs[last].ref.path == path then Some(docs[last].ref.title) else TitleOf(docs[..last], path)
  }

  ghost predicate DeclaresId(norm: string -> string, d: Doc, id: string) {
    id == Id(DimOf(id), NkOf(id)) && NkOf(id) != "" && Declares(norm, d, DimOf(id), NkOf(id))
  }

  ghost function ValueOf(norm: string -> string, docs: seq<Doc>, id: string): Option<ValueRow> {
    if exists d :: d in docs && DeclaresId(norm, d, id) then Some(ValueRow(DimOf(id), NkOf(id))) else None
  }

  function OrdinalIn(d: Doc, id: string): Option<Ordinal> {
    match FieldOf(id, d.ref.path)
    case Some(field) => if field in d.ordered then Some(Ordinal(field, d.ordered[field])) else None
    case None => None
  }

  /** The last document written under an id wins. */
  function OrdinalOf(docs: seq<Doc>, id: string): Option<Ordinal> {
    if docs == [] then None
    else
      var last := |docs| - 1;
      var own := OrdinalIn(docs[last], id);
      if own.Some? then own else OrdinalOf(docs[..last], id)
  }

  function At<T>(m: map<string, T>, k: string): Option<T> {
    if k in m then Some(m[k]) else None
  }

  ghost predicate Declared(norm: string -> string, docs: seq<Doc>, e: Edge) {
    exists d :: d in docs && d.ref.path == e.path && DeclaresId(norm, d, e.id)
  }

  ghost predicate Placed(docs: seq<Doc>, e: Edge) {
    exists d :: d in docs && d.ref.path == e.path && OrdinalIn(d, e.id).Some?
  }

  ghost predicate TitlesAgree(m: map<string, string>, docs: seq<Doc>) {
    forall path :: At(m, path) == TitleOf(docs, path)
  }

  ghost predicate ValuesAgree(norm: string -> string, m: map<string, ValueRow>, docs: seq<Doc>) {
    forall id :: At(m, id) == ValueOf(norm, docs, id)
  }

  ghost predicate OrdinalsAgree(m: map<string, Ordinal>, docs: seq<Doc>) {
    forall id :: At(m, id) == OrdinalOf(docs, id)
  }

  ghost predicate EdgesAgree(norm: string -> string, s: set<Edge>, docs: seq<Doc>) {
    forall e :: e in s <==> Declared(norm, docs, e)
  }

  ghost predicate PlacesAgree(s: set<Edge>, docs: seq<Doc>) {
    forall e :: e in s <==> Placed(docs, e)
  }

  /** The tables hold exactly what `docs` declare. */
  ghost predicate Agrees(norm: string -> string, t: Tables, docs: seq<Doc>) {
    && TitlesAgree(t.titles, docs) && AliasAgrees(norm, t.aliases, docs) && ValuesAgree(norm, t.values, docs)
    && OrdinalsAgree(t.ordinals, docs) && EdgesAgree(norm, t.hasValue, docs) && PlacesAgree(t.hasOrder, docs)
  }

  /** What an ordered query reads holds exactly what `docs` declare. */
  ghost predicate OrderAgrees(t: Tables, docs: seq<Doc>) {
    TitlesAgree(t.titles, docs) && OrdinalsAgree(t.ordinals, docs) && PlacesAgree(t.hasOrder, docs)
  }

  lemma SameMap<T>(m: map<string, T>, n: map<string, T>)
    requires forall k :: At(m, k) == At(n, k)
    ensures m == n
  {
    forall k ensures k in m <==> k in n {
      assert At(m, k) == At(n, k);
    }
    forall k | k in m ensures m[k] == n[k] {
      assert At(m, k) == At(n, k);
    }
  }

  /** The documents fix the tables: two graphs that agree with them are equal. */
  lemma TablesAreUnique(norm: string -> string, s: Tables, t: Tables, docs: seq<Doc>)
    requires Agrees(norm, s, docs) && Agrees(norm, t, docs)
    ensures s == t
  {
    SameMap(s.titles, t.titles);
    forall k ensures At(s.aliases, k) == At(t.aliases, k) {
      assert Aliased(s.aliases, k) == AliasOf(norm, docs, k) == Aliased(t.aliases, k);
    }
    SameMap(s.aliases, t.aliases);
    SameMap(s.values, t.values);
    SameMap(s.ordinals, t.ordinals);
    assert forall e :: e in s.hasValue <==> e in t.hasValue;
    assert forall e :: e in s.hasOrder <==> e in t.hasOrder;
  }

  // ---------- Writing them ----------

  /** UNWIND rows, MERGE by key, SET the rest: a later row overwrites. */
  function Merged<T>(rows: seq<(string, T)>): map<string, T> {
    if rows == [] then map[]
    else
      var last := |rows| - 1;
      Merged(rows[..last])[rows[last].0 := rows[last].1]
  }

  lemma MergedMore<T>(rows: seq<(string, T)>, k: string, v: T)
    ensures Merged(rows + [(k, v)]) == Merged(rows)[k := v]
  {
    assert (rows + [(k, v)])[..|rows|] == rows;
  }

  lemma {:induction false} MergedMembers<T>(rows: seq<(string, T)>)
    ensures forall k :: k in Merged(rows) ==> (k, Merged(rows)[k]) in rows
    ensures forall r :: r in rows ==> r.0 in Merged(rows)
  {
    if rows != [] {
      MergedMembers(rows[..|rows| - 1]);
      assert rows == rows[..|rows| - 1] + [rows[|rows| - 1]];
    }
  }

  lemma {:induction false} MergedInTurn<T>(a: seq<(string, T)>, b: seq<(string, T)>)
    ensures Merged(a) + Merged(b) == Merged(a + b)
  {
    if b == [] {
      assert a + b == a;
    } else {
      var last := |b| - 1;
      MergedInTurn(a, b[..last]);
      assert (a + b)[..|a + b| - 1] == a + b[..last];
    }
  }

  /** UNWIND rows, MATCH both ends, MERGE the edge: a row with a missing end writes nothing. */
  function Linked<T>(rows: seq<Edge>, titles: map<string, string>, ends: map<string, T>): set<Edge> {
    set e | e in rows && e.path in titles && e.id in ends
  }

  method AliasRows(norm: string -> string, d: Doc, rows: seq<(string, string)>) returns (out: seq<(string, string)>)
    ensures forall key :: Aliased(Merged(out), key) == if Registers(norm, d, key) then Some(norm(d.ref.title)) else Aliased(Merged(rows), key)
  {
    out := rows;
    var canon := norm(d.ref.title);
    if canon == "" {
      return;
    }
    ghost var keys := Keys(norm, d.aliases);
    for i := 0 to |d.aliases|
      invariant forall key :: Aliased(Merged(out), key) == if key != "" && key in keys[..i] then Some(canon) else Aliased(Merged(rows), key)
    {
      var ak := norm(d.aliases[i]);
      assert keys[..i + 1] == keys[..i] + [ak];
      if ak != "" {
        MergedMore(out, ak, canon);
        out := out + [(ak, canon)];
      }
    }
    assert keys[..|d.aliases|] == keys;
  }

  /** One Ordinal for every field the document carries. */
  method OrdinalRows(d: Doc, rows: seq<(string, Ordinal)>, edges: seq<Edge>) returns (out: seq<(string, Ordinal)>, links: seq<Edge>)
    ensures forall id :: At(Merged(out), id) == if OrdinalIn(d, id).Some? then OrdinalIn(d, id) else At(Merged(rows), id)
    ensures forall e :: e in links <==> e in edges || (e.path == d.ref.path && OrdinalIn(d, e.id).Some?)
  {
    out, links := rows, edges;
    var fields := d.ordered.Keys;
    while fields != {}
      invariant fields <= d.ordered.Keys
      invariant forall id :: At(Merged(out), id) == if WrittenIn(d, fields, id) then OrdinalIn(d, id) else At(Merged(rows), id)
      invariant forall e :: e in links <==> e in edges || (e.path == d.ref.path && WrittenIn(d, fields, e.id))
      decreases |fields|
    {
      var field :| field in fields;
      var id := Id(field, d.ref.path);
      FieldWritten(d, fields, field);
      MergedMore(out, id, Ordinal(field, d.ordered[field]));
      out := out + [(id, Ordinal(field, d.ordered[field]))];
      links := links + [Edge(d.ref.path, id)];
      fields := fields - {field};
    }
  }

  /** `id` is one of the document's ordinals, for a field already written. */
  ghost predicate WrittenIn(d: Doc, fields: set<string>, id: string) {
    OrdinalIn(d, id).Some? && OrdinalIn(d, id).value.field !in fields
  }

  lemma FieldWritten(d: Doc, fields: set<string>, field: string)
    requires field in fields && field in d.ordered
    ensures var id := Id(field, d.ref.path); OrdinalIn(d, id) == Some(Ordinal(field, d.ordered[field]))
    ensures forall id :: WrittenIn(d, fields - {field}, id) <==> WrittenIn(d, fields, id) || id == Id(field, d.ref.path)
  {
    IdNamesField(Id(field, d.ref.path), field, d.ref.path);
    forall id ensures WrittenIn(d, fields - {field}, id) <==> WrittenIn(d, fields, id) || id == Id(field, d.ref.path) {
      IdNamesField(id, field, d.ref.path);
    }
  }

  // Values, one dimension of one document at a time.

  ghost predicate SeenId(dim: string, seen: set<string>, id: string) {
    id == Id(dim, NkOf(id)) && NkOf(id) in seen
  }

  lemma SeeKey(dim: string, seen: set<string>, nk: string)
    requires '|' !in nk
    ensures forall id :: SeenId(dim, seen + {nk}, id) <==> SeenId(dim, seen, id) || id == Id(dim, nk)
  {
    IdNamesValue(dim, nk);
  }

  ghost predicate DeclaresUnder(norm: string -> string, d: Doc, dim: string, id: string) {
    DimOf(id) == dim && DeclaresId(norm, d, id)
  }

  lemma SeenIsDeclared(norm: string -> string, d: Doc, dim: string, seen: set<string>)
    requires NoBars(norm) && dim in d.dimensions
    requires forall nk :: nk in seen <==> nk != "" && nk in Keys(norm, d.dimensions[dim])
    ensures forall id :: SeenId(dim, seen, id) <==> DeclaresUnder(norm, d, dim, id)
  {
    forall id ensures SeenId(dim, seen, id) <==> DeclaresUnder(norm, d, dim, id) {
      if SeenId(dim, seen, id) {
        var keys := Keys(norm, d.dimensions[dim]);
        var i :| 0 <= i < |keys| && keys[i] == NkOf(id);
        IdNamesValue(dim, norm(d.dimensions[dim][i]));
      }
    }
  }

  function Row(id: string): ValueRow {
    ValueRow(DimOf(id), NkOf(id))
  }

  /** `out` is `prior` with the rows of `ids` added where missing. */
  ghost predicate RowsAdded(out: map<string, ValueRow>, prior: map<string, ValueRow>, ids: iset<string>) {
    forall id :: At(out, id) == if id in ids && id !in prior then Some(Row(id)) else At(prior, id)
  }

  ghost predicate EdgesAdded(out: seq<Edge>, prior: seq<Edge>, path: string, ids: iset<string>) {
    forall e :: e in out <==> e in prior || (e.path == path && e.id in ids)
  }

  ghost function SeenIds(dim: string, seen: set<string>): iset<string> {
    iset id | SeenId(dim, seen, id)
  }

  ghost function IdsOf(norm: string -> string, d: Doc, dims: set<string>): iset<string> {
    iset id | DimOf(id) !in dims && DeclaresId(norm, d, id)
  }

  lemma AddRow(out: map<string, ValueRow>, prior: map<string, ValueRow>, ids: iset<string>, id: string)
    requires RowsAdded(out, prior, ids)
    ensures RowsAdded(if id in out then out else out[id := Row(id)], prior, ids + iset{id})
  {
    assert id !in prior ==> At(prior, id) == None;
    assert id in out <==> At(out, id).Some?;
  }

  lemma AddEdge(out: seq<Edge>, prior: seq<Edge>, path: string, ids: iset<string>, id: string)
    requires EdgesAdded(out, prior, path, ids)
    ensures EdgesAdded(out + [Edge(path, id)], prior, path, ids + iset{id})
  {
  }

  method DimensionRows(norm: string -> string, d: Doc, dim: string, rows: seq<(string, ValueRow)>, edges: seq<Edge>)
    returns (out: seq<(string, ValueRow)>, links: seq<Edge>)
    requires NoBars(norm) && dim in d.dimensions
    ensures RowsAdded(Merged(out), Merged(rows), iset id | DeclaresUnder(norm, d, dim, id))
    ensures EdgesAdded(links, edges, d.ref.path, iset id | DeclaresUnder(norm, d, dim, id))
  {
    out, links := rows, edges;
    var values, seen := d.dimensions[dim], {};
    ghost var keys := Keys(norm, values);
    for i := 0 to |values|
      invariant forall nk :: nk in seen <==> nk != "" && nk in keys[..i]
      invariant RowsAdded(Merged(out), Merged(rows), SeenIds(dim, seen))
      invariant EdgesAdded(links, edges, d.ref.path, SeenIds(dim, seen))
    {
      var nk := norm(values[i]);
      assert keys[..i + 1] == keys[..i] + [nk];
      if nk == "" || nk in seen {
        continue;
      }
      var id := Id(dim, nk);
      IdNamesValue(dim, nk);
      SeeKey(dim, seen, nk);
      assert SeenIds(dim, seen + {nk}) == SeenIds(dim, seen) + iset{id};
      AddRow(Merged(out), Merged(rows), SeenIds(dim, seen), id);
      AddEdge(links, edges, d.ref.path, SeenIds(dim, seen), id);
      if id !in Merged(out) {
        MergedMore(out, id, ValueRow(dim, nk));
        out := out + [(id, ValueRow(dim, nk))];
      }
      links := links + [Edge(d.ref.path, id)];
      seen := seen + {nk};
    }
    assert keys[..|values|] == keys;
    SeenIsDeclared(norm, d, dim, seen);
    assert SeenIds(dim, seen) == iset id | DeclaresUnder(norm, d, dim, id);
  }

  lemma ChainAdded(out: map<string, ValueRow>, middle: map<string, ValueRow>, prior: map<string, ValueRow>, more: iset<string>, ids: iset<string>)
    requires RowsAdded(out, middle, more) && RowsAdded(middle, prior, ids)
    ensures RowsAdded(out, prior, ids + more)
  {
    forall id ensures At(out, id) == if id in ids + more && id !in prior then Some(Row(id)) else At(prior, id) {
      assert id in middle <==> At(middle, id).Some?;
      assert id in prior <==> At(prior, id).Some?;
    }
  }

  /** One Value for every key the document declares that has none yet, and an edge to each. */
  method DocumentRows(norm: string -> string, d: Doc, rows: seq<(string, ValueRow)>, edges: seq<Edge>)
    returns (out: seq<(string, ValueRow)>, links: seq<Edge>)
    requires NoBars(norm)
    ensures RowsAdded(Merged(out), Merged(rows), IdsOf(norm, d, {}))
    ensures EdgesAdded(links, edges, d.ref.path, IdsOf(norm, d, {}))
  {
    out, links := rows, edges;
    var dims := d.dimensions.Keys;
    assert IdsOf(norm, d, dims) == iset{};
    while dims != {}
      invariant dims <= d.dimensions.Keys
      invariant RowsAdded(Merged(out), Merged(rows), IdsOf(norm, d, dims))
      invariant EdgesAdded(links, edges, d.ref.path, IdsOf(norm, d, dims))
      decreases |dims|
    {
      var dim :| dim in dims;
      ghost var middle, written := Merged(out), IdsOf(norm, d, dims);
      out, links := DimensionRows(norm, d, dim, out, links);
      ghost var more := iset id | DeclaresUnder(norm, d, dim, id);
      ChainAdded(Merged(out), middle, Merged(rows), more, written);
      dims := dims - {dim};
      assert IdsOf(norm, d, dims) == written + more;
    }
  }

  // ---------- The rebuild ----------

  lemma ValuesStep(norm: string -> string, docs: seq<Doc>, d: Doc, prior: map<string, ValueRow>, out: map<string, ValueRow>)
    requires ValuesAgree(norm, prior, docs) && RowsAdded(out, prior, IdsOf(norm, d, {}))
    ensures ValuesAgree(norm, out, docs + [d])
  {
    forall id ensures At(out, id) == ValueOf(norm, docs + [d], id) {
      assert At(prior, id) == ValueOf(norm, docs, id);
      assert id in prior <==> At(prior, id).Some?;
      assert id in IdsOf(norm, d, {}) <==> DeclaresId(norm, d, id);
      assert d in docs + [d] && forall x :: x in docs + [d] <==> x in docs || x == d;
    }
  }

  lemma EdgesStep(norm: string -> string, docs: seq<Doc>, d: Doc, prior: seq<Edge>, out: seq<Edge>)
    requires forall e :: e in prior <==> Declared(norm, docs, e)
    requires EdgesAdded(out, prior, d.ref.path, IdsOf(norm, d, {}))
    ensures forall e :: e in out <==> Declared(norm, docs + [d], e)
  {
    forall e ensures e in out <==> Declared(norm, docs + [d], e) {
      assert e.id in IdsOf(norm, d, {}) <==> DeclaresId(norm, d, e.id);
      assert d in docs + [d] && forall x :: x in docs + [d] <==> x in docs || x == d;
    }
  }

  lemma PlacesStep(docs: seq<Doc>, d: Doc, prior: seq<Edge>, out: seq<Edge>)
    requires forall e :: e in prior <==> Placed(docs, e)
    requires forall e :: e in out <==> e in prior || (e.path == d.ref.path && OrdinalIn(d, e.id).Some?)
    ensures forall e :: e in out <==> Placed(docs + [d], e)
  {
    forall e ensures e in out <==> Placed(docs + [d], e) {
      assert d in docs + [d] && forall x :: x in docs + [d] <==> x in docs || x == d;
    }
  }

  lemma {:induction false} TitledDocs(docs: seq<Doc>, d: Doc)
    requires d in docs
    ensures TitleOf(docs, d.ref.path).Some?
  {
    var last := |docs| - 1;
    if docs[last].ref.path != d.ref.path {
      TitledDocs(docs[..last], d);
    }
  }

  lemma {:induction false} OrdinalsPlaced(docs: seq<Doc>, d: Doc, id: string)
    requires d in docs && OrdinalIn(d, id).Some?
    ensures OrdinalOf(docs, id).Some?
  {
    var last := |docs| - 1;
    if OrdinalIn(docs[last], id).None? {
      OrdinalsPlaced(docs[..last], d, id);
    }
  }

  /** Both ends of every staged edge are there when it is written, so none is lost. */
  lemma EveryEdgeLinks(norm: string -> string, docs: seq<Doc>, titles: map<string, string>, values: map<string, ValueRow>,
                       ordinals: map<string, Ordinal>, edges: seq<Edge>, places: seq<Edge>)
    requires TitlesAgree(titles, docs) && ValuesAgree(norm, values, docs) && OrdinalsAgree(ordinals, docs)
    requires forall e :: e in edges <==> Declared(norm, docs, e)
    requires forall e :: e in places <==> Placed(docs, e)
    ensures EdgesAgree(norm, Linked(edges, titles, values), docs)
    ensures PlacesAgree(Linked(places, titles, ordinals), docs)
  {
    forall e | e in edges ensures e.path in titles && e.id in values {
      var d :| d in docs && d.ref.path == e.path && DeclaresId(norm, d, e.id);
      TitledDocs(docs, d);
      assert At(titles, e.path) == TitleOf(docs, e.path) && At(values, e.id) == ValueOf(norm, docs, e.id);
    }
    forall e | e in places ensures e.path in titles && e.id in ordinals {
      var d :| d in docs && d.ref.path == e.path && OrdinalIn(d, e.id).Some?;
      TitledDocs(docs, d);
      OrdinalsPlaced(docs, d, e.id);
      assert At(titles, e.path) == TitleOf(docs, e.path) && At(ordinals, e.id) == OrdinalOf(docs, e.id);
    }
  }

  /** The rows staged for the documents so far. */
  datatype Staged = Staged(titles: seq<(string, string)>, aliases: seq<(string, string)>, values: seq<(string, ValueRow)>,
                           ordinals: seq<(string, Ordinal)>, edges: seq<Edge>, places: seq<Edge>)

  ghost predicate Stages(norm: string -> string, s: Staged, docs: seq<Doc>) {
    && TitlesAgree(Merged(s.titles), docs) && AliasAgrees(norm, Merged(s.aliases), docs)
    && ValuesAgree(norm, Merged(s.values), docs) && OrdinalsAgree(Merged(s.ordinals), docs)
    && (forall e :: e in s.edges <==> Declared(norm, docs, e))
    && (forall e :: e in s.places <==> Placed(docs, e))
  }

  method StageDocument(norm: string -> string, s: Staged, ghost docs: seq<Doc>, d: Doc) returns (out: Staged)
    requires NoBars(norm) && Stages(norm, s, docs)
    ensures Stages(norm, out, docs + [d])
  {
    assert (docs + [d])[..|docs|] == docs;
    var ordinals, places := OrdinalRows(d, s.ordinals, s.places);
    PlacesStep(docs, d, s.places, places);
    MergedMore(s.titles, d.ref.path, d.ref.title);
    var titles := s.titles + [(d.ref.path, d.ref.title)];
    var aliases := AliasRows(norm, d, s.aliases);
    var values, edges := DocumentRows(norm, d, s.values, s.edges);
    ValuesStep(norm, docs, d, Merged(s.values), Merged(values));
    EdgesStep(norm, docs, d, s.edges, edges);
    out := Staged(titles, aliases, values, ordinals, edges, places);
  }

  /** rebuildStructured: everything is deleted, rows are staged for every document and written in six
      batches, nodes before edges. */
  method Rebuild(norm: string -> string, docs: seq<Doc>) returns (t: Tables)
    requires NoBars(norm)
    ensures Agrees(norm, t, docs)
  {
    var s := Staged([], [], [], [], [], []);
    for i := 0 to |docs|
      invariant Stages(norm, s, docs[..i])
    {
      assert docs[..i + 1] == docs[..i] + [docs[i]];
      s := StageDocument(norm, s, docs[..i], docs[i]);
    }
    assert docs[..|docs|] == docs;
    var titles, values, ordinals := Merged(s.titles), Merged(s.values), Merged(s.ordinals);
    t := Tables(titles, Merged(s.aliases), values, ordinals, Linked(s.edges, titles, values), Linked(s.places, titles, ordinals));
    EveryEdgeLinks(norm, docs, titles, values, ordinals, s.edges, s.places);
  }

  // ---------- Queries ----------

  /** MATCH (d)-[:HAS_VALUE]->(v {dim, nk}): one row for each edge. */
  function ValueMatches(t: Tables, dim: string, nk: string): set<Edge> {
    set e | e in t.hasValue && e.id in t.values && t.values[e.id] == ValueRow(dim, nk) && e.path in t.titles
  }

  function OrderMatches(t: Tables, field: string): set<Edge> {
    set e | e in t.hasOrder && e.id in t.ordinals && t.ordinals[e.id].field == field && e.path in t.titles
  }

  /** The rows of a query, in no particular order. */
  method Rows(matches: set<Edge>) returns (rows: seq<Edge>)
    ensures Sorting.Distinct(rows) && forall e :: e in rows <==> e in matches
  {
    rows := [];
    var todo := matches;
    while todo != {}
      invariant todo <= matches && Sorting.Distinct(rows)
      invariant forall e :: e in rows <==> e in matches && e !in todo
      decreases |todo|
    {
      var e :| e in todo;
      todo, rows := todo - {e}, rows + [e];
    }
  }

  function RefAt(t: Tables, e: Edge): DocRef
    requires e.path in t.titles
  {
    DocRef(e.path, t.titles[e.path])
  }

  lemma {:induction false} TitleIsDocs(docs: seq<Doc>, d: Doc)
    requires DistinctPaths(docs) && d in docs
    ensures TitleOf(docs, d.ref.path) == Some(d.ref.title)
  {
    var last := |docs| - 1;
    if docs[last] != d {
      TitleIsDocs(docs[..last], d);
    }
  }

  lemma {:induction false} ScanMembers(norm: string -> string, docs: seq<Doc>, dim: string, key: string)
    requires DistinctPaths(docs)
    ensures forall r :: r in Scan(norm, docs, dim, key) <==> exists d :: d in docs && d.ref == r && Declares(norm, d, dim, key)
    ensures Sorting.Distinct(Scan(norm, docs, dim, key))
  {
    if docs != [] {
      var last := |docs| - 1;
      var front := Scan(norm, docs[..last], dim, key);
      ScanMembers(norm, docs[..last], dim, key);
      assert docs == docs[..last] + [docs[last]];
      forall k | 0 <= k < |front| ensures front[k] != docs[last].ref {
        assert front[k] in front;
        var d :| d in docs[..last] && d.ref == front[k];
        var j :| 0 <= j < last && docs[j] == d;
      }
    }
  }

  /** The matching edges are one for each document that declares the value. */
  lemma MatchNamesDoc(norm: string -> string, t: Tables, docs: seq<Doc>, dim: string, nk: string, r: DocRef)
    requires Agrees(norm, t, docs) && DistinctPaths(docs) && nk != "" && '|' !in nk
    ensures (exists d :: d in docs && d.ref == r && Declares(norm, d, dim, nk)) <==>
            (Edge(r.path, Id(dim, nk)) in ValueMatches(t, dim, nk) && RefAt(t, Edge(r.path, Id(dim, nk))) == r)
  {
    var e := Edge(r.path, Id(dim, nk));
    IdNamesValue(dim, nk);
    assert At(t.values, e.id) == ValueOf(norm, docs, e.id) && At(t.titles, r.path) == TitleOf(docs, r.path);
    assert e in t.hasValue <==> Declared(norm, docs, e);
    if d :| d in docs && d.ref == r && Declares(norm, d, dim, nk) {
      TitleIsDocs(docs, d);
      assert DeclaresId(norm, d, e.id);
    } else if e in t.hasValue && At(t.titles, r.path) == Some(r.title) {
      var d :| d in docs && d.ref.path == r.path && DeclaresId(norm, d, e.id);
      TitleIsDocs(docs, d);
    }
  }

  lemma MatchHasId(norm: string -> string, t: Tables, docs: seq<Doc>, dim: string, nk: string, e: Edge)
    requires Agrees(norm, t, docs) && e in ValueMatches(t, dim, nk)
    ensures e.id == Id(dim, nk)
  {
    assert At(t.values, e.id) == ValueOf(norm, docs, e.id);
    var d :| d in docs && DeclaresId(norm, d, e.id);
  }

  /** What resolveAlias leaves of a query's key. */
  function ResolvedIn(t: Tables, nk: string): string {
    At(t.aliases, nk).GetOr(nk)
  }

  lemma KeysHoldNoBar(norm: string -> string, docs: seq<Doc>, value: string)
    requires NoBars(norm)
    ensures '|' !in Resolved(norm, docs, value)
    ensures norm(value) != "" ==> Resolved(norm, docs, value) != ""
    decreases |docs|
  {
    if docs != [] {
      KeysHoldNoBar(norm, docs[..|docs| - 1], value);
    }
  }

  lemma {:induction false} BlankIsNoAlias(norm: string -> string, docs: seq<Doc>)
    ensures AliasOf(norm, docs, "") == None
  {
    if docs != [] {
      BlankIsNoAlias(norm, docs[..|docs| - 1]);
    }
  }

  /** Enumerate over the graph finds exactly the documents the scan does, each once. */
  method Enumerate(norm: string -> string, t: Tables, ghost docs: seq<Doc>, dim: string, value: string) returns (out: seq<DocRef>)
    requires Agrees(norm, t, docs) && NoBars(norm) && DistinctPaths(docs)
    ensures multiset(out) == multiset(EnumerateScan(norm, docs, dim, value))
  {
    out := [];
    var nk := norm(value);
    if nk == "" {
      BlankIsNoAlias(norm, docs);
      return;
    }
    assert Aliased(t.aliases, nk) == AliasOf(norm, docs, nk);
    KeysHoldNoBar(norm, docs, value);
    nk := ResolvedIn(t, nk);
    var rows := Rows(ValueMatches(t, dim, nk));
    for i := 0 to |rows|
      invariant |out| == i && forall k :: 0 <= k < i ==> rows[k].path in t.titles && out[k] == RefAt(t, rows[k])
    {
      assert rows[i] in rows;
      out := out + [RefAt(t, rows[i])];
    }
    RowsAreScan(norm, t, docs, dim, nk, rows, out);
  }

  lemma RowsAreScan(norm: string -> string, t: Tables, docs: seq<Doc>, dim: string, nk: string, rows: seq<Edge>, out: seq<DocRef>)
    requires Agrees(norm, t, docs) && DistinctPaths(docs) && nk != "" && '|' !in nk
    requires Sorting.Distinct(rows) && forall e :: e in rows <==> e in ValueMatches(t, dim, nk)
    requires |out| == |rows| && forall k :: 0 <= k < |rows| ==> rows[k].path in t.titles && out[k] == RefAt(t, rows[k])
    ensures multiset(out) == multiset(Scan(norm, docs, dim, nk))
  {
    ScanMembers(norm, docs, dim, nk);
    forall k | 0 <= k < |rows| ensures rows[k] == Edge(out[k].path, Id(dim, nk)) {
      assert rows[k] in rows;
      MatchHasId(norm, t, docs, dim, nk, rows[k]);
    }
    forall r ensures r in out <==> r in Scan(norm, docs, dim, nk) {
      MatchNamesDoc(norm, t, docs, dim, nk, r);
      var e := Edge(r.path, Id(dim, nk));
      if r in out {
        var k :| 0 <= k < |rows| && out[k] == r;
        assert rows[k] in rows;
      }
      if r in Scan(norm, docs, dim, nk) {
        assert e in rows;
        var k :| 0 <= k < |rows| && rows[k] == e;
        assert out[k] == r;
      }
    }
    forall i, j | 0 <= i < j < |out| ensures out[i] != out[j] {
      assert rows[i] != rows[j];
    }
    Sorting.SameMembers(out, Scan(norm, docs, dim, nk));
  }
}
