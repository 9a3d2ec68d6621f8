/** The in-memory backend's structured index and ordered recall (internal/store memory). */
module Structured {
  import opened Options
  import Sorting
  import Text
  import Normalize

  datatype DocRef = DocRef(path: string, title: string)

  datatype Chunk = Chunk(source: string, text: string)

  datatype Doc = Doc(ref: DocRef, chunks: seq<Chunk>, dimensions: map<string, seq<string>>, aliases: seq<string>, ordered: map<string, real>)

  datatype Direction = Asc | Desc

  datatype Entry = Entry(ref: DocRef, key: real)

  type Vector = seq<real>

  // ---------- The documents, scanned ----------

  function Keys(norm: string -> string, spellings: seq<string>): (r: seq<string>)
    ensures |r| == |spellings| && forall i :: 0 <= i < |r| ==> r[i] == norm(spellings[i])
  {
    seq(|spellings|, i requires 0 <= i < |spellings| => norm(spellings[i]))
  }

  /** Some declared value of the dimension normalizes to `key`. */
  ghost predicate Declares(norm: string -> string, d: Doc, dim: string, key: string) {
    dim in d.dimensions && key in Keys(norm, d.dimensions[dim])
  }

  /** The refs of the documents declaring `key`, each once, in document order. */
  ghost function Scan(norm: string -> string, docs: seq<Doc>, dim: string, key: string): seq<DocRef> {
    if docs == [] then []
    else
      var last := |docs| - 1;
      Scan(norm, docs[..last], dim, key) + (if Declares(norm, docs[last], dim, key) then [docs[last].ref] else [])
  }

  /** The canonical key `d` registers for the surface form normalizing to `key`. */
  ghost predicate Registers(norm: string -> string, d: Doc, key: string) {
    key != "" && norm(d.ref.title) != "" && key in Keys(norm, d.aliases)
  }

  /** The last registration of `key` wins. */
  ghost function AliasOf(norm: string -> string, docs: seq<Doc>, key: string): Option<string> {
    if docs == [] then None
    else
      var last := |docs| - 1;
      if Registers(norm, docs[last], key) then Some(norm(docs[last].ref.title))
      else AliasOf(norm, docs[..last], key)
  }

  /** The key a query value stands for: aliases are resolved once, on the query alone. */
  ghost function Resolved(norm: string -> string, docs: seq<Doc>, value: string): string {
    var key := norm(value);
    AliasOf(norm, docs, key).GetOr(key)
  }

  /** A naive scan: every document declaring the resolved key. A blank key declares nothing. */
  ghost function EnumerateScan(norm: string -> string, docs: seq<Doc>, dim: string, value: string): seq<DocRef> {
    var key := Resolved(norm, docs, value);
    if key == "" then [] else Scan(norm, docs, dim, key)
  }

  /** A document is found exactly if one of its values of the dimension has the query's key. */
  lemma {:induction false} ScanFinds(norm: string -> string, docs: seq<Doc>, dim: string, key: string, ref: DocRef)
    ensures ref in Scan(norm, docs, dim, key) <==>
      exists d, v :: d in docs && d.ref == ref && dim in d.dimensions && v in d.dimensions[dim] && norm(v) == key
  {
    if docs != [] {
      var last := |docs| - 1;
      ScanFinds(norm, docs[..last], dim, key, ref);
      DeclaresIs(norm, docs[last], dim, key);
      if Declares(norm, docs[last], dim, key) && docs[last].ref == ref {
        var v :| v in docs[last].dimensions[dim] && norm(v) == key;
        assert docs[last] in docs;
      }
      assert docs == docs[..last] + [docs[last]];
    }
  }

  lemma DeclaresIs(norm: string -> string, d: Doc, dim: string, key: string)
    ensures Declares(norm, d, dim, key) <==> dim in d.dimensions && exists v :: v in d.dimensions[dim] && norm(v) == key
  {
    if dim in d.dimensions {
      var values := d.dimensions[dim];
      if key in Keys(norm, values) {
        var i :| 0 <= i < |values| && Keys(norm, values)[i] == key;
        assert values[i] in values && norm(values[i]) == key;
      }
      forall v | v in values && norm(v) == key ensures key in Keys(norm, values) {
        var i :| 0 <= i < |values| && values[i] == v;
        assert Keys(norm, values)[i] == key;
      }
    }
  }

  /** A surface form stands for the title of the last document that has it as an alias. */
  lemma {:induction false} AliasIs(norm: string -> string, docs: seq<Doc>, key: string, canon: string)
    ensures AliasOf(norm, docs, key) == Some(canon) <==>
      exists k :: 0 <= k < |docs| && Names(norm, docs[k], key, canon) && forall j, other :: k < j < |docs| ==> !Names(norm, docs[j], key, other)
  {
    if docs != [] {
      var last := |docs| - 1;
      AliasIs(norm, docs[..last], key, canon);
      NamesIs(norm, docs[last], key);
      if Registers(norm, docs[last], key) {
        assert Names(norm, docs[last], key, norm(docs[last].ref.title));
      } else {
        assert forall other :: !Names(norm, docs[last], key, other);
        assert forall k :: 0 <= k < last ==> docs[..last][k] == docs[k];
      }
    }
  }

  /** The document has an alias of this key, and a title of that one; neither is blank. */
  ghost predicate Names(norm: string -> string, d: Doc, key: string, canon: string) {
    key != "" && canon != "" && norm(d.ref.title) == canon && exists a :: a in d.aliases && norm(a) == key
  }

  lemma NamesIs(norm: string -> string, d: Doc, key: string)
    ensures Registers(norm, d, key) <==> Names(norm, d, key, norm(d.ref.title))
  {
    if key in Keys(norm, d.aliases) {
      var i :| 0 <= i < |d.aliases| && Keys(norm, d.aliases)[i] == key;
      assert d.aliases[i] in d.aliases && norm(d.aliases[i]) == key;
    }
    forall a | a in d.aliases && norm(a) == key ensures key in Keys(norm, d.aliases) {
      var i :| 0 <= i < |d.aliases| && d.aliases[i] == a;
      assert Keys(norm, d.aliases)[i] == key;
    }
  }

  /** Spellings that differ only in separators, letter case and the like find the same documents. */
  lemma SpellingsEnumerateAlike(u: Normalize.Unicode, docs: seq<Doc>, dim: string, v: string, w: string)
    requires Normalize.Words(u, Normalize.Folded(u, u.nfkc(v))) == Normalize.Words(u, Normalize.Folded(u, u.nfkc(w)))
    ensures EnumerateScan(Normalize.Keying(u), docs, dim, v) == EnumerateScan(Normalize.Keying(u), docs, dim, w)
  {
    Normalize.SameWordsSameKey(u, v, w);
  }

  function Carriers(docs: seq<Doc>, field: string): seq<Entry> {
    if docs == [] then []
    else
      var last := |docs| - 1;
      Carriers(docs[..last], field) + EntryIn(docs[last], field)
  }

  predicate AscLess(a: Entry, b: Entry) {
    a.key < b.key || (a.key == b.key && Text.Less(a.ref.path, b.ref.path))
  }

  /** Descending by key, but path ascending still inside a tie. */
  predicate DescLess(a: Entry, b: Entry) {
    a.key > b.key || (a.key == b.key && Text.Less(a.ref.path, b.ref.path))
  }

  function DirLess(dir: Direction): (Entry, Entry) -> bool {
    if dir == Asc then AscLess else DescLess
  }

  function Refs(entries: seq<Entry>): (r: seq<DocRef>)
    ensures |r| == |entries| && forall i :: 0 <= i < |r| ==> r[i] == entries[i].ref
  {
    seq(|entries|, i requires 0 <= i < |entries| => entries[i].ref)
  }

  function Capped<T>(s: seq<T>, limit: int): (r: seq<T>)
    ensures r <= s && |r| == if 0 < limit < |s| then limit else |s|
  {
    if limit > 0 && |s| > limit then s[..limit] else s
  }

  /** The documents carrying `field`, sorted directly, capped last. */
  function OrderedScan(docs: seq<Doc>, field: string, dir: Direction, limit: int): seq<DocRef> {
    Capped(Refs(Sorting.StableSort(Carriers(docs, field), DirLess(dir))), limit)
  }

  ghost predicate DistinctPaths(docs: seq<Doc>) {
    forall i, j :: 0 <= i < j < |docs| ==> docs[i].ref.path != docs[j].ref.path
  }

  // ---------- The descending walk ----------

  /** Where the last group of equal keys starts. */
  function LastGroup(entries: seq<Entry>): (j: nat)
    requires entries != []
    ensures j < |entries| && forall k :: j <= k < |entries| ==> entries[k].key == entries[|entries| - 1].key
    ensures j > 0 ==> entries[j - 1].key != entries[|entries| - 1].key
  {
    if |entries| > 1 && entries[|entries| - 2].key == entries[|entries| - 1].key
    then assert entries[..|entries| - 1][|entries| - 2] == entries[|entries| - 2]; LastGroup(entries[..|entries| - 1])
    else |entries| - 1
  }

  /** The groups of equal keys last to first, each walked forwards. */
  function DescWalk(entries: seq<Entry>): (r: seq<Entry>)
    ensures |r| == |entries|
  {
    if entries == [] then []
    else
      var j := LastGroup(entries);
      entries[j..] + DescWalk(entries[..j])
  }

  function Walk(entries: seq<Entry>, dir: Direction): seq<Entry> {
    if dir == Desc then DescWalk(entries) else entries
  }

  lemma {:induction false} DescWalkKeeps(entries: seq<Entry>)
    ensures multiset(DescWalk(entries)) == multiset(entries)
  {
    if entries != [] {
      var j := LastGroup(entries);
      DescWalkKeeps(entries[..j]);
      assert entries == entries[..j] + entries[j..];
    }
  }

  /** Every entry of an earlier group comes after the last group when descending. */
  lemma EarlierGroupIsLess(entries: seq<Entry>, m: nat, j: nat, i: nat)
    requires Sorting.Ascending(entries, AscLess) && m < j <= i < |entries|
    requires entries[j - 1].key != entries[i].key && entries[j].key == entries[i].key
    ensures DescLess(entries[i], entries[m])
  {
    assert AscLess(entries[j - 1], entries[j]);
    assert m < j - 1 ==> AscLess(entries[m], entries[j - 1]);
  }

  lemma JoinAscends(a: seq<Entry>, b: seq<Entry>, lt: (Entry, Entry) -> bool)
    requires Sorting.Ascending(a, lt) && Sorting.Ascending(b, lt)
    requires forall i, k :: 0 <= i < |a| && 0 <= k < |b| ==> lt(a[i], b[k])
    ensures Sorting.Ascending(a + b, lt)
  {
  }

  lemma GroupAscends(entries: seq<Entry>, j: nat)
    requires Sorting.Ascending(entries, AscLess) && j < |entries|
    requires forall k :: j <= k < |entries| ==> entries[k].key == entries[j].key
    ensures Sorting.Ascending(entries[j..], DescLess)
  {
    forall i, k | 0 <= i < k < |entries[j..]| ensures DescLess(entries[j..][i], entries[j..][k]) {
      assert AscLess(entries[j + i], entries[j + k]);
    }
  }

  lemma {:induction false} DescWalkSorts(entries: seq<Entry>)
    requires Sorting.Ascending(entries, AscLess)
    ensures Sorting.Ascending(DescWalk(entries), DescLess)
  {
    if entries != [] {
      var j := LastGroup(entries);
      var front, group, rest := entries[..j], entries[j..], DescWalk(entries[..j]);
      DescWalkSorts(front);
      DescWalkKeeps(front);
      GroupAscends(entries, j);
      forall i, k | 0 <= i < |group| && 0 <= k < |rest| ensures DescLess(group[i], rest[k]) {
        assert rest[k] in multiset(front);
        var m :| 0 <= m < j && front[m] == rest[k];
        EarlierGroupIsLess(entries, m, j, j + i);
      }
      JoinAscends(group, rest, DescLess);
    }
  }

  lemma DirLessOrders(dir: Direction)
    ensures Sorting.WeakOrder(DirLess(dir)) && Sorting.Asymmetric(DirLess(dir))
  {
    var less := DirLess(dir);
    forall x, y | less(x, y) ensures Sorting.AtMost(less, x, y) {
      if x.key == y.key {
        Text.LessAsymmetric(x.ref.path, y.ref.path);
      }
    }
    forall x, y, z | Sorting.AtMost(less, x, y) && Sorting.AtMost(less, y, z) ensures Sorting.AtMost(less, x, z) {
      if x.key == y.key == z.key {
        Text.LessTotal(x.ref.path, y.ref.path);
        Text.LessTotal(y.ref.path, z.ref.path);
        if Text.Less(x.ref.path, y.ref.path) && Text.Less(y.ref.path, z.ref.path) {
          Text.LessTransitive(x.ref.path, y.ref.path, z.ref.path);
        }
        if Text.Less(z.ref.path, x.ref.path) {
          Text.LessAsymmetric(z.ref.path, x.ref.path);
        }
      }
    }
    forall x, y | less(x, y) ensures !less(y, x) {
      assert Sorting.AtMost(less, x, y);
    }
  }

  predicate OtherPath(a: Entry, b: Entry) {
    a.ref.path != b.ref.path
  }

  lemma {:induction false} CarriersAreDistinct(docs: seq<Doc>, field: string)
    requires DistinctPaths(docs)
    ensures var c := Carriers(docs, field);
      && PathsApart(c)
      && (forall e :: e in c ==> exists d :: d in docs && d.ref == e.ref && field in d.ordered && d.ordered[field] == e.key)
  {
    if docs != [] {
      var last := |docs| - 1;
      CarriersAreDistinct(docs[..last], field);
      var c := Carriers(docs[..last], field);
      forall e | e in c ensures e.ref.path != docs[last].ref.path {
        var d :| d in docs[..last] && d.ref == e.ref;
      }
      forall e | e in c ensures exists d :: d in docs && d.ref == e.ref && field in d.ordered && d.ordered[field] == e.key {
        var d :| d in docs[..last] && d.ref == e.ref && field in d.ordered && d.ordered[field] == e.key;
        assert d in docs;
      }
      assert docs[last] in docs;
    }
  }

  ghost predicate PathsApart(entries: seq<Entry>) {
    forall i, j :: 0 <= i < j < |entries| ==> OtherPath(entries[i], entries[j])
  }

  /** With distinct paths a direct sort is strict, so it is the only sorted arrangement. */
  lemma SortsStrictly(c: seq<Entry>, dir: Direction)
    requires PathsApart(c)
    ensures Sorting.Ascending(Sorting.StableSort(c, DirLess(dir)), DirLess(dir))
  {
    DirLessOrders(dir);
    Sorting.StableSortOrdered(c, DirLess(dir), OtherPath);
    var s := Sorting.StableSort(c, DirLess(dir));
    forall i, j | 0 <= i < j < |s| ensures DirLess(dir)(s[i], s[j]) {
      assert Sorting.InOrder(DirLess(dir), OtherPath, s[i], s[j]);
      Text.LessTotal(s[i].ref.path, s[j].ref.path);
    }
  }

  lemma CarriersSortStrictly(docs: seq<Doc>, field: string, dir: Direction)
    requires DistinctPaths(docs)
    ensures Sorting.Ascending(Sorting.StableSort(Carriers(docs, field), DirLess(dir)), DirLess(dir))
  {
    CarriersAreDistinct(docs, field);
    SortsStrictly(Carriers(docs, field), dir);
  }

  lemma {:induction false} CarrierIsEntry(docs: seq<Doc>, field: string, d: Doc)
    requires d in docs && field in d.ordered
    ensures Entry(d.ref, d.ordered[field]) in Carriers(docs, field)
  {
    var last := |docs| - 1;
    if d != docs[last] {
      CarrierIsEntry(docs[..last], field, d);
    }
  }

  /** Where two documents stand that both carry the field: the lesser (or, descending, the greater) value
      first, and the lesser path first where the values are equal. */
  predicate StandsBefore(d: Doc, e: Doc, field: string, dir: Direction)
    requires field in d.ordered && field in e.ordered
  {
    var x, y := d.ordered[field], e.ordered[field];
    (if dir == Asc then x < y else x > y) || (x == y && Text.Less(d.ref.path, e.ref.path))
  }

  lemma CarrierIsListed(docs: seq<Doc>, field: string, dir: Direction, d: Doc)
    requires d in docs && field in d.ordered
    ensures d.ref in OrderedScan(docs, field, dir, 0)
  {
    var c := Carriers(docs, field);
    var s := Sorting.StableSort(c, DirLess(dir));
    CarrierIsEntry(docs, field, d);
    assert Entry(d.ref, d.ordered[field]) in multiset(c);
    assert Entry(d.ref, d.ordered[field]) in multiset(s);
    var k :| 0 <= k < |s| && s[k] == Entry(d.ref, d.ordered[field]);
    assert Refs(s)[k] == d.ref;
  }

  lemma ListedCarries(docs: seq<Doc>, field: string, dir: Direction, i: nat) returns (d: Doc)
    requires DistinctPaths(docs) && i < |OrderedScan(docs, field, dir, 0)|
    ensures d in docs && field in d.ordered && d.ref == OrderedScan(docs, field, dir, 0)[i]
    ensures i < |Sorting.StableSort(Carriers(docs, field), DirLess(dir))|
    ensures Sorting.StableSort(Carriers(docs, field), DirLess(dir))[i] == Entry(d.ref, d.ordered[field])
  {
    var c := Carriers(docs, field);
    var s := Sorting.StableSort(c, DirLess(dir));
    CarriersAreDistinct(docs, field);
    assert s[i] in multiset(s);
    assert s[i] in multiset(c);
    d :| d in docs && d.ref == s[i].ref && field in d.ordered && d.ordered[field] == s[i].key;
  }

  /** The scan lists exactly the documents that carry the field. */
  lemma ScanListsCarriers(docs: seq<Doc>, field: string, dir: Direction, ref: DocRef)
    requires DistinctPaths(docs)
    ensures ref in OrderedScan(docs, field, dir, 0) <==> exists d :: d in docs && d.ref == ref && field in d.ordered
  {
    if d :| d in docs && d.ref == ref && field in d.ordered {
      CarrierIsListed(docs, field, dir, d);
    }
    if ref in OrderedScan(docs, field, dir, 0) {
      var i :| 0 <= i < |OrderedScan(docs, field, dir, 0)| && OrderedScan(docs, field, dir, 0)[i] == ref;
      var d := ListedCarries(docs, field, dir, i);
    }
  }

  lemma SamePathSameDoc(docs: seq<Doc>, d: Doc, e: Doc)
    requires DistinctPaths(docs) && d in docs && e in docs && d.ref == e.ref
    ensures d == e
  {
  }

  /** It lists them by the field's value in the asked direction, and by path where the values are equal. */
  lemma ScanIsInOrder(docs: seq<Doc>, field: string, dir: Direction, i: nat, j: nat, d: Doc, e: Doc)
    requires DistinctPaths(docs) && d in docs && e in docs && field in d.ordered && field in e.ordered
    requires var out := OrderedScan(docs, field, dir, 0); i < j < |out| && out[i] == d.ref && out[j] == e.ref
    ensures StandsBefore(d, e, field, dir)
  {
    var first := ListedCarries(docs, field, dir, i);
    var second := ListedCarries(docs, field, dir, j);
    SamePathSameDoc(docs, d, first);
    SamePathSameDoc(docs, e, second);
    CarriersSortStrictly(docs, field, dir);
  }

  /** The grouped reverse walk of the ascending index is the direct descending sort. */
  lemma WalkIsDirectSort(docs: seq<Doc>, field: string, dir: Direction)
    requires DistinctPaths(docs)
    ensures Walk(Sorting.StableSort(Carriers(docs, field), AscLess), dir) == Sorting.StableSort(Carriers(docs, field), DirLess(dir))
  {
    if dir == Desc {
      var asc, desc := Sorting.StableSort(Carriers(docs, field), AscLess), Sorting.StableSort(Carriers(docs, field), DescLess);
      CarriersSortStrictly(docs, field, Asc);
      CarriersSortStrictly(docs, field, Desc);
      DirLessOrders(Desc);
      DescWalkSorts(asc);
      DescWalkKeeps(asc);
      Sorting.AscendingUnique(DescWalk(asc), desc, DescLess);
    }
  }

  // ---------- The index ----------

  type DimIndex = map<string, map<string, seq<DocRef>>>

  datatype MemIndex = MemIndex(chunks: seq<Chunk>, vectors: seq<Vector>, dimIndex: DimIndex, aliasMap: map<string, string>,
                               ordIndex: map<string, seq<Entry>>)

  function ByKey(m: map<string, seq<DocRef>>, key: string): seq<DocRef> {
    if key in m then m[key] else []
  }

  function Listed(m: DimIndex, dim: string, key: string): seq<DocRef> {
    if dim in m then ByKey(m[dim], key) else []
  }

  function Aliased(m: map<string, string>, key: string): Option<string> {
    if key in m then Some(m[key]) else None
  }

  function EntriesOf(m: map<string, seq<Entry>>, field: string): seq<Entry> {
    if field in m then m[field] else []
  }

  ghost predicate DimAgrees(norm: string -> string, m: DimIndex, docs: seq<Doc>, dim: string) {
    forall key :: Listed(m, dim, key) == if key == "" then [] else Scan(norm, docs, dim, key)
  }

  ghost predicate AliasAgrees(norm: string -> string, m: map<string, string>, docs: seq<Doc>) {
    forall key :: Aliased(m, key) == AliasOf(norm, docs, key)
  }

  /** The key of one spelling. */
  method KeyOf(norm: string -> string, spellings: seq<string>, i: nat) returns (key: string)
    requires i < |spellings|
    ensures Keys(norm, spellings)[..i + 1] == Keys(norm, spellings)[..i] + [key]
  {
    key := norm(spellings[i]);
    assert Keys(norm, spellings)[i] == key;
  }

  ghost predicate Seen(seen: set<string>, keys: seq<string>) {
    forall key :: key in seen <==> key != "" && key in keys
  }

  ghost predicate AddedOnce(r: map<string, seq<DocRef>>, byKey: map<string, seq<DocRef>>, seen: set<string>, ref: DocRef) {
    forall key :: ByKey(r, key) == if key in seen then ByKey(byKey, key) + [ref] else ByKey(byKey, key)
  }

  /** One document's values of one dimension: the document is added once under each of their keys. */
  method IndexValues(norm: string -> string, byKey: map<string, seq<DocRef>>, values: seq<string>, ref: DocRef) returns (r: map<string, seq<DocRef>>)
    ensures forall key :: ByKey(r, key) == if key != "" && key in Keys(norm, values) then ByKey(byKey, key) + [ref] else ByKey(byKey, key)
  {
    ghost var keys := Keys(norm, values);
    r := byKey;
    var seen: set<string> := {};
    for i := 0 to |values|
      invariant Seen(seen, keys[..i])
      invariant AddedOnce(r, byKey, seen, ref)
    {
      var vk := KeyOf(norm, values, i);
      if vk == "" || vk in seen {
        continue;
      }
      seen := seen + {vk};
      r := r[vk := ByKey(r, vk) + [ref]];
    }
    assert keys[..|values|] == keys;
  }

  /** Every alias of one document, registered for its canonical key. */
  method IndexAliases(norm: string -> string, aliasMap: map<string, string>, aliases: seq<string>, canon: string) returns (r: map<string, string>)
    ensures forall key :: Aliased(r, key) == if key != "" && key in Keys(norm, aliases) then Some(canon) else Aliased(aliasMap, key)
  {
    ghost var keys := Keys(norm, aliases);
    r := aliasMap;
    for i := 0 to |aliases|
      invariant forall key :: Aliased(r, key) == if key != "" && key in keys[..i] then Some(canon) else Aliased(aliasMap, key)
    {
      var ak := KeyOf(norm, aliases, i);
      if ak != "" {
        r := r[ak := canon];
      }
    }
    assert keys[..|aliases|] == keys;
  }

  method IndexAliasesOf(norm: string -> string, aliasMap: map<string, string>, d: Doc) returns (r: map<string, string>)
    ensures forall key :: Aliased(r, key) == if Registers(norm, d, key) then Some(norm(d.ref.title)) else Aliased(aliasMap, key)
  {
    r := aliasMap;
    var canon := norm(d.ref.title);
    if canon != "" {
      r := IndexAliases(norm, aliasMap, d.aliases, canon);
    }
  }

  lemma OtherDimension(m: DimIndex, dim: string, byKey: map<string, seq<DocRef>>, other: string)
    requires other != dim
    ensures forall key :: Listed(m[dim := byKey], other, key) == Listed(m, other, key)
  {
  }

  method BuildStructured(norm: string -> string, docs: seq<Doc>) returns (dimIndex: DimIndex, aliasMap: map<string, string>)
    ensures forall dim :: DimAgrees(norm, dimIndex, docs, dim)
    ensures AliasAgrees(norm, aliasMap, docs)
  {
    dimIndex, aliasMap := map[], map[];
    for i := 0 to |docs|
      invariant forall dim :: DimAgrees(norm, dimIndex, docs[..i], dim)
      invariant AliasAgrees(norm, aliasMap, docs[..i])
    {
      var d := docs[i];
      assert docs[..i + 1][..i] == docs[..i];
      aliasMap := IndexAliasesOf(norm, aliasMap, d);
      var dims := d.dimensions.Keys;
      while dims != {}
        invariant dims <= d.dimensions.Keys
        invariant forall dim :: dim in dims || dim !in d.dimensions ==> DimAgrees(norm, dimIndex, docs[..i], dim)
        invariant forall dim :: dim in d.dimensions && dim !in dims ==> DimAgrees(norm, dimIndex, docs[..i + 1], dim)
        decreases |dims|
      {
        var dim :| dim in dims;
        ghost var prior := dimIndex;
        var byKey := if dim in dimIndex then dimIndex[dim] else map[];
        assert DimAgrees(norm, prior, docs[..i], dim);
        assert forall key :: ByKey(byKey, key) == Listed(prior, dim, key);
        byKey := IndexValues(norm, byKey, d.dimensions[dim], d.ref);
        dimIndex := dimIndex[dim := byKey];
        dims := dims - {dim};
        forall other, ds | other != dim ensures DimAgrees(norm, dimIndex, ds, other) <==> DimAgrees(norm, prior, ds, other) {
          OtherDimension(prior, dim, byKey, other);
        }
      }
      forall dim | dim !in d.dimensions ensures DimAgrees(norm, dimIndex, docs[..i + 1], dim) {
        assert DimAgrees(norm, dimIndex, docs[..i], dim);
      }
    }
    assert docs[..|docs|] == docs;
  }

  function EntryIn(d: Doc, field: string): seq<Entry> {
    if field in d.ordered then [Entry(d.ref, d.ordered[field])] else []
  }

  method AddEntries(entries: map<string, seq<Entry>>, d: Doc) returns (out: map<string, seq<Entry>>)
    ensures forall field :: EntriesOf(out, field) == EntriesOf(entries, field) + EntryIn(d, field)
  {
    out := entries;
    var fields := d.ordered.Keys;
    while fields != {}
      invariant fields <= d.ordered.Keys
      invariant forall field :: EntriesOf(out, field) == EntriesOf(entries, field) + if field in fields then [] else EntryIn(d, field)
      decreases |fields|
    {
      var field :| field in fields;
      out := out[field := EntriesOf(out, field) + [Entry(d.ref, d.ordered[field])]];
      fields := fields - {field};
    }
  }

  method SortEntries(entries: map<string, seq<Entry>>) returns (out: map<string, seq<Entry>>)
    ensures forall field :: EntriesOf(out, field) == Sorting.StableSort(EntriesOf(entries, field), AscLess)
  {
    out := entries;
    var fields := out.Keys;
    while fields != {}
      invariant fields <= out.Keys == entries.Keys
      invariant forall field :: field in entries ==> out[field] == if field in fields then entries[field] else Sorting.StableSort(entries[field], AscLess)
      decreases |fields|
    {
      var field :| field in fields;
      out := out[field := Sorting.StableSort(out[field], AscLess)];
      fields := fields - {field};
    }
  }

  method BuildOrdered(docs: seq<Doc>) returns (out: map<string, seq<Entry>>)
    ensures forall field :: EntriesOf(out, field) == Sorting.StableSort(Carriers(docs, field), AscLess)
  {
    out := map[];
    for i := 0 to |docs|
      invariant forall field :: EntriesOf(out, field) == Carriers(docs[..i], field)
    {
      assert docs[..i + 1][..i] == docs[..i];
      out := AddEntries(out, docs[i]);
    }
    assert docs[..|docs|] == docs;
    out := SortEntries(out);
  }

  function ChunksOf(docs: seq<Doc>): seq<Chunk> {
    if docs == [] then [] else ChunksOf(docs[..|docs| - 1]) + docs[|docs| - 1].chunks
  }

  /** The chunks are those of the documents. */
  lemma {:induction false} ChunksAreDocs(docs: seq<Doc>, c: Chunk)
    ensures c in ChunksOf(docs) <==> exists d :: d in docs && c in d.chunks
  {
    if docs != [] {
      var last := |docs| - 1;
      ChunksAreDocs(docs[..last], c);
      assert docs == docs[..last] + [docs[last]];
    }
  }

  function Embedded(embed: string -> Vector, chunks: seq<Chunk>): seq<Vector> {
    seq(|chunks|, i requires 0 <= i < |chunks| => embed(chunks[i].text))
  }

  class Memory {
    /** normalizeKey. */
    const norm: string -> string
    const embedder: Option<string -> Vector>
    /** The current snapshot, replaced whole and never changed. */
    var idx: Option<MemIndex>

    constructor (norm: string -> string, embedder: Option<string -> Vector>)
      ensures this.norm == norm && this.embedder == embedder && idx == None
    {
      this.norm, this.embedder, this.idx := norm, embedder, None;
    }

    /** The snapshot answers as a scan of `docs` does. */
    ghost predicate Indexes(docs: seq<Doc>)
      reads this
    {
      && idx.Some? && idx.value.chunks == ChunksOf(docs)
      && idx.value.vectors == (if embedder.Some? then Embedded(embedder.value, ChunksOf(docs)) else [])
      && (forall dim :: DimAgrees(norm, idx.value.dimIndex, docs, dim))
      && AliasAgrees(norm, idx.value.aliasMap, docs)
      && (forall field :: EntriesOf(idx.value.ordIndex, field) == Sorting.StableSort(Carriers(docs, field), AscLess))
    }

    /** A failed embedding leaves the last good snapshot. */
    method Index(docs: seq<Doc>, embedOk: bool) returns (ok: bool)
      modifies this
      ensures ok == (embedOk || embedder.None? || ChunksOf(docs) == [])
      ensures if ok then Indexes(docs) else idx == old(idx)
    {
      var chunks: seq<Chunk> := [];
      for i := 0 to |docs|
        invariant chunks == ChunksOf(docs[..i]) && idx == old(idx)
      {
        assert docs[..i + 1][..i] == docs[..i];
        chunks := chunks + docs[i].chunks;
      }
      assert docs[..|docs|] == docs;
      var vectors: seq<Vector> := [];
      if embedder.Some? && |chunks| > 0 {
        if !embedOk {
          return false;
        }
        vectors := Embedded(embedder.value, chunks);
      }
      var dimIndex, aliasMap := BuildStructured(norm, docs);
      var ordIndex := BuildOrdered(docs);
      idx := Some(MemIndex(chunks, vectors, dimIndex, aliasMap, ordIndex));
      return true;
    }

    /** What Enumerate answers from the current snapshot. */
    ghost function Answer(dim: string, value: string): seq<DocRef>
      reads this
    {
      if idx.None? then []
      else
        var key := norm(value);
        Listed(idx.value.dimIndex, dim, Aliased(idx.value.aliasMap, key).GetOr(key))
    }

    /** What Ordered answers from the current snapshot. */
    ghost function OrderedAnswer(field: string, dir: Direction, limit: int): seq<DocRef>
      reads this
    {
      if idx.None? then [] else Capped(Refs(Walk(EntriesOf(idx.value.ordIndex, field), dir)), limit)
    }

    lemma AnswerIsScan(docs: seq<Doc>, dim: string, value: string)
      requires Indexes(docs)
      ensures Answer(dim, value) == EnumerateScan(norm, docs, dim, value)
    {
      assert DimAgrees(norm, idx.value.dimIndex, docs, dim);
      assert Aliased(idx.value.aliasMap, norm(value)) == AliasOf(norm, docs, norm(value));
    }

    lemma OrderedAnswerIsScan(docs: seq<Doc>, field: string, dir: Direction, limit: int)
      requires Indexes(docs) && DistinctPaths(docs)
      ensures OrderedAnswer(field, dir, limit) == OrderedScan(docs, field, dir, limit)
    {
      WalkIsDirectSort(docs, field, dir);
    }

    /** The complete set, as a fresh copy: what a caller does to it cannot reach the index. */
    method Enumerate(dim: string, value: string) returns (out: array<DocRef>)
      ensures fresh(out) && out[..] == Answer(dim, value)
      ensures forall docs :: Indexes(docs) ==> out[..] == EnumerateScan(norm, docs, dim, value)
    {
      forall docs | Indexes(docs) ensures Answer(dim, value) == EnumerateScan(norm, docs, dim, value) {
        AnswerIsScan(docs, dim, value);
      }
      if idx.None? || dim !in idx.value.dimIndex {
        out := new DocRef[0];
        return;
      }
      var byKey := idx.value.dimIndex[dim];
      var key := norm(value);
      if key in idx.value.aliasMap {
        key := idx.value.aliasMap[key];
      }
      var refs := ByKey(byKey, key);
      out := new DocRef[|refs|](i requires 0 <= i < |refs| => refs[i]);
      assert out[..] == refs;
    }

    /** The documents carrying the field, walked in the asked direction, capped last. */
    method Ordered(field: string, dir: Direction, limit: int) returns (out: seq<DocRef>)
      ensures out == OrderedAnswer(field, dir, limit)
      ensures forall docs :: Indexes(docs) && DistinctPaths(docs) ==> out == OrderedScan(docs, field, dir, limit)
    {
      forall docs | Indexes(docs) && DistinctPaths(docs)
        ensures OrderedAnswer(field, dir, limit) == OrderedScan(docs, field, dir, limit)
      {
        OrderedAnswerIsScan(docs, field, dir, limit);
      }
      var entries := if idx.Some? then EntriesOf(idx.value.ordIndex, field) else [];
      out := [];
      if |entries| == 0 {
        assert Refs(Walk(entries, dir)) == [];
      } else if dir == Desc {
        out := WalkDescending(entries);
      } else {
        for i := 0 to |entries|
          invariant out == Refs(entries[..i])
        {
          out := out + [entries[i].ref];
        }
        assert entries[..|entries|] == entries;
      }
      if limit > 0 && |out| > limit {
        out := out[..limit];
      }
    }
  }

  /** The start of the group of equal keys that ends at `i`. */
  method GroupStart(entries: seq<Entry>, i: nat) returns (j: nat)
    requires i < |entries|
    ensures j <= i && forall k :: j <= k <= i ==> entries[k].key == entries[i].key
    ensures j > 0 ==> entries[j - 1].key != entries[i].key
  {
    j := i;
    while j > 0 && entries[j - 1].key == entries[i].key
      invariant j <= i && forall k :: j <= k <= i ==> entries[k].key == entries[i].key
    {
      j := j - 1;
    }
  }

  /** The reverse walk over groups of equal keys, each group forwards. */
  method WalkDescending(entries: seq<Entry>) returns (out: seq<DocRef>)
    ensures out == Refs(DescWalk(entries))
  {
    out := [];
    ghost var walked: seq<Entry> := [];
    var i: int := |entries| - 1;
    assert entries[..i + 1] == entries;
    while i >= 0
      invariant -1 <= i < |entries|
      invariant out == Refs(walked) && walked + DescWalk(entries[..i + 1]) == DescWalk(entries)
      decreases i
    {
      var j: int := GroupStart(entries, i);
      WalkGroup(entries, i, j, walked);
      out := AppendRefs(out, entries, j, i + 1, walked);
      walked := walked + entries[j..i + 1];
      i := j - 1;
    }
    assert walked + DescWalk(entries[..0]) == walked;
  }

  method AppendRefs(prior: seq<DocRef>, entries: seq<Entry>, from: nat, to: nat, ghost walked: seq<Entry>) returns (out: seq<DocRef>)
    requires from <= to <= |entries| && prior == Refs(walked)
    ensures out == Refs(walked + entries[from..to])
  {
    out := prior;
    assert walked + entries[from..from] == walked;
    for k := from to to
      invariant out == Refs(walked + entries[from..k])
    {
      assert walked + entries[from..k + 1] == walked + entries[from..k] + [entries[k]];
      out := out + [entries[k].ref];
    }
  }

  lemma WalkGroup(entries: seq<Entry>, i: nat, j: nat, walked: seq<Entry>)
    requires j <= i < |entries| && forall k :: j <= k <= i ==> entries[k].key == entries[i].key
    requires j > 0 ==> entries[j - 1].key != entries[i].key
    ensures walked + DescWalk(entries[..i + 1]) == walked + entries[j..i + 1] + DescWalk(entries[..j])
  {
    var here := entries[..i + 1];
    LastGroupIs(here, j);
    assert here[j..] == entries[j..i + 1] && here[..j] == entries[..j];
  }

  lemma LastGroupIs(entries: seq<Entry>, j: nat)
    requires j < |entries| && forall k :: j <= k < |entries| ==> entries[k].key == entries[|entries| - 1].key
    requires j > 0 ==> entries[j - 1].key != entries[|entries| - 1].key
    ensures LastGroup(entries) == j
  {
  }
}
