/** The structured-lookup tool (internal/tools enumerate): filters intersected by document path, and
    ordered recall restricted to the documents that match them. */
module Enumerate {
  import opened Options
  import opened Structured
  import GraphOrder
  import Ladybug
  import Sorting

  datatype Filter = Filter(dimension: string, value: string)

  datatype Order = Order(field: string, dir: Direction, limit: int)

  // ---------- The tool over the store's answers ----------

  function PathsOf(refs: seq<DocRef>): set<string> {
    set r | r in refs :: r.path
  }

  function KeepPaths(refs: seq<DocRef>, keep: set<string>): seq<DocRef> {
    if refs == [] then []
    else
      var last := |refs| - 1;
      var front := KeepPaths(refs[..last], keep);
      if refs[last].path in keep then front + [refs[last]] else front
  }

  /** The store the tool is given. */
  datatype Backend = InMemory(memory: Memory) | InGraph(store: Ladybug.Store, space: char -> bool) {
    ghost function Objects(): set<object> {
      match this
      case InMemory(m) => {m}
      case InGraph(g, _) => {g}
    }

    ghost function Norm(): string -> string {
      match this
      case InMemory(m) => m.norm
      case InGraph(g, _) => g.norm
    }

    ghost predicate Ready()
      reads Objects()
    {
      InGraph? ==> store.Valid() && DistinctPaths(store.held)
    }

    /** What it may answer to a filter: the in-memory store its scan, the graph the same in some order. */
    ghost predicate Answers(f: Filter, leg: seq<DocRef>)
      reads Objects()
    {
      match this
      case InMemory(m) => leg == m.Answer(f.dimension, f.value)
      case InGraph(g, _) => multiset(leg) == multiset(EnumerateScan(g.norm, g.held, f.dimension, f.value))
    }

    /** What it may answer to an ordered query. */
    ghost predicate AnswersOrdered(field: string, dir: Direction, limit: int, refs: seq<DocRef>)
      reads Objects()
    {
      match this
      case InMemory(m) => refs == m.OrderedAnswer(field, dir, limit)
      case InGraph(g, space) =>
        if GraphOrder.Blank(field, space) then refs == []
        else exists rows :: GraphOrder.Recalled(g.graph, field, dir, rows) && refs == Capped(Refs(GraphOrder.Entries(g.graph, rows)), limit)
    }

    /** It was last indexed with `docs`. */
    ghost predicate Holds(docs: seq<Doc>)
      reads Objects()
    {
      DistinctPaths(docs) &&
      match this
      case InMemory(m) => m.Indexes(docs)
      case InGraph(g, _) => g.Valid() && g.held == docs
    }

    /** Its order over `docs` is the sorted scan's: the graph's when no two ordinals share an id, of a field
        with a name. */
    ghost predicate OrdersAsScan(docs: seq<Doc>, field: string) {
      InGraph? ==> GraphOrder.OrdinalsApart(docs) && !GraphOrder.Blank(field, space)
    }

    lemma AnswerHolds(docs: seq<Doc>, f: Filter, leg: seq<DocRef>)
      requires Holds(docs) && Answers(f, leg)
      ensures multiset(leg) == multiset(FilterScan(Norm(), docs, f))
    {
      if InMemory? {
        memory.AnswerIsScan(docs, f.dimension, f.value);
      }
    }

    lemma OrderHolds(docs: seq<Doc>, field: string, dir: Direction, limit: int, refs: seq<DocRef>)
      requires Holds(docs) && OrdersAsScan(docs, field) && AnswersOrdered(field, dir, limit, refs)
      ensures refs == OrderedScan(docs, field, dir, limit)
    {
      match this
      case InMemory(m) => m.OrderedAnswerIsScan(docs, field, dir, limit);
      case InGraph(g, _) =>
        var rows :| GraphOrder.Recalled(g.graph, field, dir, rows) && refs == Capped(Refs(GraphOrder.Entries(g.graph, rows)), limit);
        GraphOrder.RecallIsScan(g.graph, docs, field, dir, rows);
    }

    method Enumerate(f: Filter) returns (refs: array<DocRef>)
      requires Ready()
      ensures fresh(refs) && Answers(f, refs[..])
    {
      match this
      case InMemory(m) => refs := m.Enumerate(f.dimension, f.value);
      case InGraph(g, _) =>
        var found := g.Enumerate(f.dimension, f.value);
        refs := new DocRef[|found|](i requires 0 <= i < |found| => found[i]);
        assert refs[..] == found;
    }

    method Ordered(field: string, dir: Direction, limit: int) returns (refs: seq<DocRef>)
      requires Ready()
      ensures AnswersOrdered(field, dir, limit, refs)
    {
      match this
      case InMemory(m) => refs := m.Ordered(field, dir, limit);
      case InGraph(g, space) => refs := g.Ordered(space, field, dir, limit);
    }
  }

  /** `legs` are the store's answers to the first filters, in turn. */
  ghost predicate Answered(b: Backend, filters: seq<Filter>, legs: seq<seq<DocRef>>)
    reads b.Objects()
  {
    |legs| <= |filters| && forall i :: 0 <= i < |legs| ==> b.Answers(filters[i], legs[i])
  }

  /** The legs joined by path, in the order of the first. */
  ghost function Join(legs: seq<seq<DocRef>>): seq<DocRef>
    requires legs != []
  {
    var last := |legs| - 1;
    if last == 0 then legs[0] else KeepPaths(Join(legs[..last]), PathsOf(legs[last]))
  }

  ghost predicate FirstEmpty(legs: seq<seq<DocRef>>, i: nat) {
    i < |legs| && legs[i] == [] && forall k :: 0 <= k < i ==> legs[k] != []
  }

  ghost predicate NoneEmpty(legs: seq<seq<DocRef>>) {
    forall k :: 0 <= k < |legs| ==> legs[k] != []
  }

  method PathSet(refs: array<DocRef>, n: nat) returns (keep: set<string>)
    requires n <= refs.Length
    ensures keep == PathsOf(refs[..n])
  {
    keep := {};
    for i := 0 to n
      invariant keep == PathsOf(refs[..i])
    {
      PathsOfMore(refs[..i], refs[i]);
      assert refs[..i + 1] == refs[..i] + [refs[i]];
      keep := keep + {refs[i].path};
    }
  }

  lemma PathsOfMore(refs: seq<DocRef>, r: DocRef)
    ensures PathsOf(refs + [r]) == PathsOf(refs) + {r.path}
  {
    assert r in refs + [r];
    forall x | x in refs ensures x in refs + [r] {
    }
  }

  /** The first `n` refs filtered within their own array. */
  method KeepInPlace(buf: array<DocRef>, n: nat, keep: set<string>) returns (m: nat)
    requires n <= buf.Length
    modifies buf
    ensures m <= n && buf[..m] == KeepPaths(old(buf[..n]), keep)
  {
    ghost var was := buf[..n];
    m := 0;
    for i := 0 to n
      invariant m <= i && buf[..m] == KeepPaths(was[..i], keep)
      invariant forall k :: i <= k < n ==> buf[k] == was[k]
    {
      var r := buf[i];
      assert was[..i + 1][..i] == was[..i] && was[..i + 1][i] == r;
      if r.path in keep {
        buf[m] := r;
        m := m + 1;
        assert buf[..m] == buf[..m - 1] + [r];
      }
    }
    assert was[..n] == was;
  }

  /** One more filter: the kept refs are those its own leg holds too. */
  method Narrow(b: Backend, f: Filter, buf: array<DocRef>, n: nat) returns (found: bool, m: nat, ghost leg: seq<DocRef>)
    requires b.Ready() && n <= buf.Length && buf as object !in b.Objects()
    modifies buf
    ensures m <= buf.Length && b.Answers(f, leg) && found == (leg != [])
    ensures found ==> buf[..m] == KeepPaths(old(buf[..n]), PathsOf(leg))
  {
    var refs := b.Enumerate(f);
    leg := refs[..];
    assert refs[..refs.Length] == refs[..];
    if refs.Length == 0 {
      return false, n, leg;
    }
    var keep := PathSet(refs, refs.Length);
    m := KeepInPlace(buf, n, keep);
    found := true;
  }

  lemma NextLeg(legs: seq<seq<DocRef>>, leg: seq<DocRef>)
    requires legs != [] && NoneEmpty(legs)
    ensures Join(legs + [leg]) == KeepPaths(Join(legs), PathsOf(leg))
    ensures if leg == [] then FirstEmpty(legs + [leg], |legs|) else NoneEmpty(legs + [leg])
  {
    assert (legs + [leg])[..|legs|] == legs;
  }

  lemma AnsweredMore(b: Backend, filters: seq<Filter>, legs: seq<seq<DocRef>>, leg: seq<DocRef>)
    requires Answered(b, filters, legs) && |legs| < |filters| && b.Answers(filters[|legs|], leg)
    ensures Answered(b, filters, legs + [leg])
  {
  }

  /** The next filter, with what the legs so far join to in the buffer. */
  method NarrowNext(b: Backend, filters: seq<Filter>, i: nat, ghost legs: seq<seq<DocRef>>, buf: array<DocRef>, n: nat)
    returns (found: bool, m: nat, ghost all: seq<seq<DocRef>>)
    requires b.Ready() && n <= buf.Length && buf as object !in b.Objects()
    requires 0 < i < |filters| && |legs| == i && Answered(b, filters, legs) && NoneEmpty(legs) && buf[..n] == Join(legs)
    modifies buf
    ensures m <= buf.Length && |all| == i + 1 && Answered(b, filters, all)
    ensures if found then NoneEmpty(all) && buf[..m] == Join(all) else FirstEmpty(all, i)
  {
    ghost var leg;
    found, m, leg := Narrow(b, filters[i], buf, n);
    NextLeg(legs, leg);
    AnsweredMore(b, filters, legs, leg);
    all := legs + [leg];
  }

  method FirstLeg(b: Backend, filters: seq<Filter>) returns (buf: array<DocRef>, ghost legs: seq<seq<DocRef>>)
    requires filters != [] && b.Ready()
    ensures fresh(buf) && |legs| == 1 && Answered(b, filters, legs) && buf[..] == legs[0] == Join(legs)
  {
    buf := b.Enumerate(filters[0]);
    legs := [buf[..]];
  }

  /** Every leg is looked up until one alone matches nothing, which is reported by its index. */
  method Intersect(b: Backend, filters: seq<Filter>)
    returns (buf: array<DocRef>, n: nat, unmatched: Option<nat>, ghost legs: seq<seq<DocRef>>)
    requires filters != [] && b.Ready()
    ensures fresh(buf) && n <= buf.Length && Answered(b, filters, legs)
    ensures unmatched.Some? ==> FirstEmpty(legs, unmatched.value) && |legs| == unmatched.value + 1
    ensures unmatched.None? ==> NoneEmpty(legs) && |legs| == |filters| && buf[..n] == Join(legs)
  {
    buf, legs := FirstLeg(b, filters);
    n := buf.Length;
    assert buf[..n] == buf[..];
    if n == 0 {
      return buf, n, Some(0), legs;
    }
    for i := 1 to |filters|
      invariant fresh(buf) && n <= buf.Length && |legs| == i && Answered(b, filters, legs)
      invariant NoneEmpty(legs) && buf[..n] == Join(legs)
    {
      var found;
      found, n, legs := NarrowNext(b, filters, i, legs, buf, n);
      if !found {
        return buf, n, Some(i), legs;
      }
    }
    unmatched := None;
  }

  method Keep(all: seq<DocRef>, keep: set<string>) returns (refs: seq<DocRef>)
    ensures refs == KeepPaths(all, keep)
  {
    refs := [];
    for i := 0 to |all|
      invariant refs == KeepPaths(all[..i], keep)
    {
      assert all[..i + 1][..i] == all[..i];
      if all[i].path in keep {
        refs := refs + [all[i]];
      }
    }
    assert all[..|all|] == all;
  }

  /** With filters the cap is taken last, never by the store. */
  method Ordered(b: Backend, filters: seq<Filter>, ord: Order)
    returns (refs: seq<DocRef>, unmatched: Option<nat>, ghost legs: seq<seq<DocRef>>, ghost all: seq<DocRef>)
    requires b.Ready()
    ensures Answered(b, filters, legs) && (unmatched.Some? ==> refs == [] && FirstEmpty(legs, unmatched.value))
    ensures filters == [] ==> unmatched == None && b.AnswersOrdered(ord.field, ord.dir, ord.limit, refs)
    ensures filters != [] && unmatched.None? ==>
      && NoneEmpty(legs) && |legs| == |filters|
      && b.AnswersOrdered(ord.field, ord.dir, 0, all) && refs == Capped(KeepPaths(all, PathsOf(Join(legs))), ord.limit)
  {
    refs, unmatched, legs, all := [], None, [], [];
    if |filters| == 0 {
      refs := b.Ordered(ord.field, ord.dir, ord.limit);
      return;
    }
    var buf, n;
    buf, n, unmatched, legs := Intersect(b, filters);
    if unmatched.Some? {
      return;
    }
    if n == 0 {
      all := SomeOrder(b, ord.field, ord.dir);
      KeepNone(all);
      return;
    }
    var keep := PathSet(buf, n);
    var found := b.Ordered(ord.field, ord.dir, 0);
    all := found;
    refs := Keep(found, keep);
    if ord.limit > 0 && |refs| > ord.limit {
      refs := refs[..ord.limit];
    }
  }

  /** A ready store has an answer to every ordered query. */
  lemma SomeOrder(b: Backend, field: string, dir: Direction) returns (all: seq<DocRef>)
    ensures b.AnswersOrdered(field, dir, 0, all)
  {
    match b
    case InMemory(m) => all := m.OrderedAnswer(field, dir, 0);
    case InGraph(g, space) =>
      all := [];
      if !GraphOrder.Blank(field, space) {
        var rows := GraphOrder.SomeRecall(g.graph, field, dir);
        all := Capped(Refs(GraphOrder.Entries(g.graph, rows)), 0);
      }
  }

  lemma {:induction false} KeepNone(refs: seq<DocRef>)
    ensures KeepPaths(refs, PathsOf([])) == []
  {
    if refs != [] {
      KeepNone(refs[..|refs| - 1]);
    }
  }

  // ---------- What the answers are, over the documents ----------

  /** Document `d` carries the filter's value, as the vocabulary of `docs` resolves it. */
  ghost predicate Matches(norm: string -> string, docs: seq<Doc>, f: Filter, d: Doc) {
    var key := Resolved(norm, docs, f.value);
    key != "" && Declares(norm, d, f.dimension, key)
  }

  ghost predicate MatchesSome(norm: string -> string, docs: seq<Doc>, f: Filter) {
    exists d :: d in docs && Matches(norm, docs, f, d)
  }

  ghost predicate MatchesAll(norm: string -> string, docs: seq<Doc>, filters: seq<Filter>, d: Doc) {
    forall i :: 0 <= i < |filters| ==> Matches(norm, docs, filters[i], d)
  }

  /** The documents of `among` that match every filter, in their order. */
  ghost function Matching(norm: string -> string, docs: seq<Doc>, filters: seq<Filter>, among: seq<Doc>): seq<Doc> {
    if among == [] then []
    else
      var last := |among| - 1;
      var front := Matching(norm, docs, filters, among[..last]);
      if MatchesAll(norm, docs, filters, among[last]) then front + [among[last]] else front
  }

  function RefsOf(docs: seq<Doc>): (r: seq<DocRef>)
    ensures |r| == |docs| && forall i :: 0 <= i < |r| ==> r[i] == docs[i].ref
  {
    seq(|docs|, i requires 0 <= i < |docs| => docs[i].ref)
  }

  ghost function FilterScan(norm: string -> string, docs: seq<Doc>, f: Filter): seq<DocRef> {
    EnumerateScan(norm, docs, f.dimension, f.value)
  }

  lemma {:induction false} MatchingMembers(norm: string -> string, docs: seq<Doc>, filters: seq<Filter>, among: seq<Doc>)
    ensures forall d :: d in Matching(norm, docs, filters, among) <==> d in among && MatchesAll(norm, docs, filters, d)
  {
    if among != [] {
      var last := |among| - 1;
      MatchingMembers(norm, docs, filters, among[..last]);
      assert among == among[..last] + [among[last]];
    }
  }

  lemma {:induction false} ScanIsMatching(norm: string -> string, docs: seq<Doc>, f: Filter, among: seq<Doc>)
    ensures (if Resolved(norm, docs, f.value) == "" then [] else Scan(norm, among, f.dimension, Resolved(norm, docs, f.value)))
      == RefsOf(Matching(norm, docs, [f], among))
  {
    if among != [] {
      var last := |among| - 1;
      var d := among[last];
      ScanIsMatching(norm, docs, f, among[..last]);
      assert MatchesAll(norm, docs, [f], d) <==> Matches(norm, docs, [f][0], d);
      assert RefsOf(Matching(norm, docs, [f], among)) ==
        RefsOf(Matching(norm, docs, [f], among[..last])) + (if MatchesAll(norm, docs, [f], d) then [d.ref] else []);
    }
  }

  /** A leg is a plain scan for the documents its filter matches, and is empty when it matches none. */
  lemma LegIsMatching(norm: string -> string, docs: seq<Doc>, f: Filter)
    ensures FilterScan(norm, docs, f) == RefsOf(Matching(norm, docs, [f], docs))
    ensures FilterScan(norm, docs, f) != [] <==> MatchesSome(norm, docs, f)
  {
    ScanIsMatching(norm, docs, f, docs);
    MatchingMembers(norm, docs, [f], docs);
    var m := Matching(norm, docs, [f], docs);
    assert forall d :: MatchesAll(norm, docs, [f], d) <==> Matches(norm, docs, [f][0], d);
    if m != [] {
      assert m[0] in m;
    }
  }

  lemma PathNamesDoc(docs: seq<Doc>, d: Doc, e: Doc)
    requires DistinctPaths(docs) && d in docs && e in docs && d.ref.path == e.ref.path
    ensures d == e
  {
  }

  /** `keep` holds the paths of exactly the documents that match every filter. */
  ghost predicate KeepsMatching(norm: string -> string, docs: seq<Doc>, filters: seq<Filter>, keep: set<string>) {
    forall d :: d in docs ==> (d.ref.path in keep <==> MatchesAll(norm, docs, filters, d))
  }

  lemma PathsKeepMatching(norm: string -> string, docs: seq<Doc>, filters: seq<Filter>)
    requires DistinctPaths(docs)
    ensures KeepsMatching(norm, docs, filters, PathsOf(RefsOf(Matching(norm, docs, filters, docs))))
  {
    var m := Matching(norm, docs, filters, docs);
    MatchingMembers(norm, docs, filters, docs);
    forall d | d in docs ensures d.ref.path in PathsOf(RefsOf(m)) <==> MatchesAll(norm, docs, filters, d) {
      if MatchesAll(norm, docs, filters, d) {
        var i :| 0 <= i < |m| && m[i] == d;
        assert RefsOf(m)[i] in RefsOf(m);
      } else if d.ref.path in PathsOf(RefsOf(m)) {
        var i :| 0 <= i < |m| && RefsOf(m)[i].path == d.ref.path;
        assert m[i] in m;
        PathNamesDoc(docs, d, m[i]);
      }
    }
  }

  lemma MatchesOneMore(norm: string -> string, docs: seq<Doc>, filters: seq<Filter>, f: Filter, d: Doc)
    ensures MatchesAll(norm, docs, filters + [f], d) <==> MatchesAll(norm, docs, filters, d) && MatchesAll(norm, docs, [f], d)
  {
    var all := filters + [f];
    assert MatchesAll(norm, docs, [f], d) <==> Matches(norm, docs, [f][0], d);
    assert forall i :: 0 <= i < |filters| ==> all[i] == filters[i];
    assert all[|filters|] == f;
  }

  lemma RefsOfMore(m: seq<Doc>, d: Doc, keep: set<string>)
    ensures RefsOf(m + [d]) == RefsOf(m) + [d.ref]
    ensures KeepPaths(RefsOf(m + [d]), keep) == if d.ref.path in keep then KeepPaths(RefsOf(m), keep) + [d.ref] else KeepPaths(RefsOf(m), keep)
  {
    assert RefsOf(m + [d]) == RefsOf(m) + [d.ref];
    assert RefsOf(m + [d])[..|m|] == RefsOf(m);
  }

  lemma {:induction false} KeepIsMatching(norm: string -> string, docs: seq<Doc>, filters: seq<Filter>, f: Filter, keep: set<string>, among: seq<Doc>)
    requires KeepsMatching(norm, docs, [f], keep) && forall d :: d in among ==> d in docs
    ensures KeepPaths(RefsOf(Matching(norm, docs, filters, among)), keep) == RefsOf(Matching(norm, docs, filters + [f], among))
  {
    if among != [] {
      var last := |among| - 1;
      var d := among[last];
      KeepIsMatching(norm, docs, filters, f, keep, among[..last]);
      MatchesOneMore(norm, docs, filters, f, d);
      assert d in among;
      RefsOfMore(Matching(norm, docs, filters, among[..last]), d, keep);
      RefsOfMore(Matching(norm, docs, filters + [f], among[..last]), d, keep);
    }
  }

  /** The intersection is the documents that match every filter, in document order. */
  lemma {:induction false} JoinIsMatching(norm: string -> string, docs: seq<Doc>, filters: seq<Filter>, legs: seq<seq<DocRef>>)
    requires DistinctPaths(docs) && filters != [] && |legs| == |filters|
    requires forall i :: 0 <= i < |filters| ==> legs[i] == FilterScan(norm, docs, filters[i])
    ensures Join(legs) == RefsOf(Matching(norm, docs, filters, docs))
  {
    var last := |filters| - 1;
    var init, f := filters[..last], filters[last];
    LegIsMatching(norm, docs, f);
    assert filters == init + [f];
    if last == 0 {
      assert init + [f] == [f];
    } else {
      JoinIsMatching(norm, docs, init, legs[..last]);
      PathsKeepMatching(norm, docs, [f]);
      KeepIsMatching(norm, docs, init, f, PathsOf(legs[last]), docs);
    }
  }

  // ---------- Sorting the matching documents ----------

  ghost function KeepEntries(entries: seq<Entry>, keep: set<string>): seq<Entry> {
    if entries == [] then []
    else
      var last := |entries| - 1;
      var front := KeepEntries(entries[..last], keep);
      if entries[last].ref.path in keep then front + [entries[last]] else front
  }

  lemma {:induction false} KeepRefs(entries: seq<Entry>, keep: set<string>)
    ensures KeepPaths(Refs(entries), keep) == Refs(KeepEntries(entries, keep))
  {
    if entries != [] {
      var last := |entries| - 1;
      var front, e := entries[..last], entries[last];
      KeepRefs(front, keep);
      assert Refs(entries)[..last] == Refs(front);
      assert Refs(KeepEntries(front, keep) + [e]) == Refs(KeepEntries(front, keep)) + [e.ref];
    }
  }

  lemma {:induction false} KeepCounts(entries: seq<Entry>, keep: set<string>, e: Entry)
    ensures multiset(KeepEntries(entries, keep))[e] == if e.ref.path in keep then multiset(entries)[e] else 0
  {
    if entries != [] {
      var last := |entries| - 1;
      KeepCounts(entries[..last], keep, e);
      assert entries == entries[..last] + [entries[last]];
    }
  }

  lemma KeepSameElements(s: seq<Entry>, t: seq<Entry>, keep: set<string>)
    requires multiset(s) == multiset(t)
    ensures multiset(KeepEntries(s, keep)) == multiset(KeepEntries(t, keep))
  {
    forall e ensures multiset(KeepEntries(s, keep))[e] == multiset(KeepEntries(t, keep))[e] {
      KeepCounts(s, keep, e);
      KeepCounts(t, keep, e);
    }
  }

  lemma {:induction false} KeepAscends(entries: seq<Entry>, keep: set<string>, lt: (Entry, Entry) -> bool)
    requires Sorting.Ascending(entries, lt)
    ensures Sorting.Ascending(KeepEntries(entries, keep), lt)
    ensures forall e :: e in KeepEntries(entries, keep) ==> e in entries
  {
    if entries != [] {
      var last := |entries| - 1;
      KeepAscends(entries[..last], keep, lt);
      var front := KeepEntries(entries[..last], keep);
      forall i | 0 <= i < |front| ensures lt(front[i], entries[last]) {
        assert front[i] in front;
      }
    }
  }

  lemma {:induction false} KeepCarriers(norm: string -> string, docs: seq<Doc>, filters: seq<Filter>, keep: set<string>, field: string, among: seq<Doc>)
    requires KeepsMatching(norm, docs, filters, keep) && forall d :: d in among ==> d in docs
    ensures KeepEntries(Carriers(among, field), keep) == Carriers(Matching(norm, docs, filters, among), field)
  {
    if among != [] {
      var last := |among| - 1;
      var d := among[last];
      KeepCarriers(norm, docs, filters, keep, field, among[..last]);
      assert d in among;
      KeepMore(Carriers(among[..last], field), d, field, keep);
      var m := Matching(norm, docs, filters, among[..last]);
      assert (m + [d])[..|m|] == m;
    }
  }

  lemma KeepMore(entries: seq<Entry>, d: Doc, field: string, keep: set<string>)
    ensures KeepEntries(entries + EntryIn(d, field), keep) ==
      if d.ref.path in keep then KeepEntries(entries, keep) + EntryIn(d, field) else KeepEntries(entries, keep)
  {
    if field in d.ordered {
      assert (entries + EntryIn(d, field))[..|entries|] == entries;
    } else {
      assert entries + EntryIn(d, field) == entries;
    }
  }

  lemma {:induction false} MatchingIsDistinct(norm: string -> string, docs: seq<Doc>, filters: seq<Filter>, among: seq<Doc>)
    requires DistinctPaths(among)
    ensures DistinctPaths(Matching(norm, docs, filters, among))
  {
    if among != [] {
      var last := |among| - 1;
      MatchingIsDistinct(norm, docs, filters, among[..last]);
      MatchingMembers(norm, docs, filters, among[..last]);
      var m := Matching(norm, docs, filters, among[..last]);
      forall i | 0 <= i < |m| ensures m[i].ref.path != among[last].ref.path {
        assert m[i] in m;
      }
    }
  }

  /** Sorting all the documents and then keeping the matching ones is sorting the matching ones. */
  lemma SortThenFilterIsFilterThenSort(norm: string -> string, docs: seq<Doc>, filters: seq<Filter>, keep: set<string>, field: string, dir: Direction)
    requires DistinctPaths(docs) && KeepsMatching(norm, docs, filters, keep)
    ensures KeepPaths(OrderedScan(docs, field, dir, 0), keep) == OrderedScan(Matching(norm, docs, filters, docs), field, dir, 0)
  {
    var m, less := Matching(norm, docs, filters, docs), DirLess(dir);
    var all := Sorting.StableSort(Carriers(docs, field), less);
    var kept := KeepEntries(all, keep);
    KeepRefs(all, keep);
    KeepCarriers(norm, docs, filters, keep, field, docs);
    KeepSameElements(all, Carriers(docs, field), keep);
    MatchingIsDistinct(norm, docs, filters, docs);
    CarriersSortStrictly(docs, field, dir);
    CarriersSortStrictly(m, field, dir);
    KeepAscends(all, keep, less);
    DirLessOrders(dir);
    Sorting.AscendingUnique(kept, Sorting.StableSort(Carriers(m, field), less), less);
  }

  lemma {:induction false} JoinPaths(legs: seq<seq<DocRef>>, path: string)
    requires legs != []
    ensures path in PathsOf(Join(legs)) <==> forall i :: 0 <= i < |legs| ==> path in PathsOf(legs[i])
  {
    var last := |legs| - 1;
    if last > 0 {
      JoinPaths(legs[..last], path);
      KeepPathsPaths(Join(legs[..last]), PathsOf(legs[last]), path);
    }
  }

  lemma {:induction false} KeepPathsPaths(refs: seq<DocRef>, keep: set<string>, path: string)
    ensures path in PathsOf(KeepPaths(refs, keep)) <==> path in PathsOf(refs) && path in keep
  {
    if refs != [] {
      var last := |refs| - 1;
      KeepPathsPaths(refs[..last], keep, path);
      assert refs == refs[..last] + [refs[last]];
      PathsOfMore(refs[..last], refs[last]);
      PathsOfMore(KeepPaths(refs[..last], keep), refs[last]);
    }
  }

  lemma SamePaths(s: seq<DocRef>, t: seq<DocRef>)
    requires multiset(s) == multiset(t)
    ensures PathsOf(s) == PathsOf(t)
  {
    forall r ensures r in s <==> r in t {
      assert r in s <==> r in multiset(s);
      assert r in t <==> r in multiset(t);
    }
  }

  /** Whatever order the legs come in, the joined paths are those of the matching documents. */
  lemma JoinKeepsMatching(norm: string -> string, docs: seq<Doc>, filters: seq<Filter>, legs: seq<seq<DocRef>>)
    requires DistinctPaths(docs) && filters != [] && |legs| == |filters|
    requires forall i :: 0 <= i < |filters| ==> multiset(legs[i]) == multiset(FilterScan(norm, docs, filters[i]))
    ensures KeepsMatching(norm, docs, filters, PathsOf(Join(legs)))
  {
    forall d | d in docs ensures d.ref.path in PathsOf(Join(legs)) <==> MatchesAll(norm, docs, filters, d) {
      JoinPaths(legs, d.ref.path);
      forall i | 0 <= i < |filters| ensures d.ref.path in PathsOf(legs[i]) <==> Matches(norm, docs, filters[i], d) {
        SamePaths(legs[i], FilterScan(norm, docs, filters[i]));
        LegIsMatching(norm, docs, filters[i]);
        PathsKeepMatching(norm, docs, [filters[i]]);
        assert MatchesAll(norm, docs, [filters[i]], d) <==> Matches(norm, docs, [filters[i]][0], d);
      }
    }
  }

  /** A sorted faceted lookup answers as though the store held only the documents that match every
      filter: they are sorted by the field, and the cap is taken last. The order the store gives its
      legs in does not matter. */
  lemma FacetedIsScanOfMatching(norm: string -> string, docs: seq<Doc>, filters: seq<Filter>, legs: seq<seq<DocRef>>, field: string, dir: Direction, limit: int)
    requires DistinctPaths(docs) && filters != [] && |legs| == |filters|
    requires forall i :: 0 <= i < |filters| ==> multiset(legs[i]) == multiset(FilterScan(norm, docs, filters[i]))
    ensures Capped(KeepPaths(OrderedScan(docs, field, dir, 0), PathsOf(Join(legs))), limit)
         == OrderedScan(Matching(norm, docs, filters, docs), field, dir, limit)
  {
    JoinKeepsMatching(norm, docs, filters, legs);
    SortThenFilterIsFilterThenSort(norm, docs, filters, PathsOf(Join(legs)), field, dir);
  }

  lemma {:induction false} SomeCarrier(docs: seq<Doc>, field: string)
    ensures Carriers(docs, field) != [] <==> exists d :: d in docs && field in d.ordered
  {
    if docs != [] {
      var last := |docs| - 1;
      SomeCarrier(docs[..last], field);
      assert docs == docs[..last] + [docs[last]];
    }
  }

  /** So an answer is empty only when no matching document carries the field, whatever the cap. */
  lemma AnswersWhenSomeMatchCarries(norm: string -> string, docs: seq<Doc>, filters: seq<Filter>, field: string, dir: Direction, limit: int)
    ensures OrderedScan(Matching(norm, docs, filters, docs), field, dir, limit) != [] <==>
            exists d :: d in docs && MatchesAll(norm, docs, filters, d) && field in d.ordered
  {
    var m := Matching(norm, docs, filters, docs);
    MatchingMembers(norm, docs, filters, docs);
    SomeCarrier(m, field);
    CappedEmpty(Refs(Sorting.StableSort(Carriers(m, field), DirLess(dir))), limit);
  }

  lemma CappedEmpty<T>(s: seq<T>, limit: int)
    ensures Capped(s, limit) == [] <==> |s| == 0
  {
  }

  // ---------- The tool on an indexed store ----------

  lemma LegsMatch(b: Backend, docs: seq<Doc>, filters: seq<Filter>, legs: seq<seq<DocRef>>)
    requires b.Holds(docs) && Answered(b, filters, legs)
    ensures forall k :: 0 <= k < |legs| ==>
      multiset(legs[k]) == multiset(FilterScan(b.Norm(), docs, filters[k])) && (legs[k] != [] <==> MatchesSome(b.Norm(), docs, filters[k]))
  {
    forall k | 0 <= k < |legs|
      ensures multiset(legs[k]) == multiset(FilterScan(b.Norm(), docs, filters[k])) && (legs[k] != [] <==> MatchesSome(b.Norm(), docs, filters[k]))
    {
      b.AnswerHolds(docs, filters[k], legs[k]);
      LegIsMatching(b.Norm(), docs, filters[k]);
      assert |multiset(legs[k])| == |legs[k]| && |multiset(FilterScan(b.Norm(), docs, filters[k]))| == |FilterScan(b.Norm(), docs, filters[k])|;
    }
  }

  /** kb_enumerate sorted, over either store: the first filter that alone matches no document is reported;
      otherwise the answer is the matching documents, sorted by the field, cut to the limit. */
  method OrderedOver(b: Backend, ghost docs: seq<Doc>, filters: seq<Filter>, ord: Order) returns (refs: seq<DocRef>, unmatched: Option<nat>)
    requires b.Holds(docs)
    ensures unmatched.Some? ==>
      && refs == [] && unmatched.value < |filters|
      && !MatchesSome(b.Norm(), docs, filters[unmatched.value])
      && (forall k :: 0 <= k < unmatched.value ==> MatchesSome(b.Norm(), docs, filters[k]))
    ensures unmatched.None? ==>
      && (forall k :: 0 <= k < |filters| ==> MatchesSome(b.Norm(), docs, filters[k]))
      && (b.OrdersAsScan(docs, ord.field) ==> refs == OrderedScan(Matching(b.Norm(), docs, filters, docs), ord.field, ord.dir, ord.limit))
  {
    ghost var legs, all;
    refs, unmatched, legs, all := Ordered(b, filters, ord);
    LegsMatch(b, docs, filters, legs);
    if unmatched.None? && b.OrdersAsScan(docs, ord.field) {
      if filters == [] {
        b.OrderHolds(docs, ord.field, ord.dir, ord.limit, refs);
        MatchingAll(b.Norm(), docs, docs);
      } else {
        b.OrderHolds(docs, ord.field, ord.dir, 0, all);
        FacetedIsScanOfMatching(b.Norm(), docs, filters, legs, ord.field, ord.dir, ord.limit);
      }
    }
  }

  /** kb_enumerate unsorted, over either store: the matching documents, in document order when the store
      is the in-memory one. */
  method MatchingOver(b: Backend, ghost docs: seq<Doc>, filters: seq<Filter>) returns (refs: seq<DocRef>, unmatched: Option<nat>)
    requires b.Holds(docs) && filters != []
    ensures unmatched.Some? ==> refs == [] && unmatched.value < |filters| && !MatchesSome(b.Norm(), docs, filters[unmatched.value])
    ensures unmatched.None? ==>
      && KeepsMatching(b.Norm(), docs, filters, PathsOf(refs))
      && (b.InMemory? ==> refs == RefsOf(Matching(b.Norm(), docs, filters, docs)))
  {
    var buf, n;
    ghost var legs;
    buf, n, unmatched, legs := Intersect(b, filters);
    LegsMatch(b, docs, filters, legs);
    if unmatched.Some? {
      return [], unmatched;
    }
    refs := buf[..n];
    JoinKeepsMatching(b.Norm(), docs, filters, legs);
    if b.InMemory? {
      forall i | 0 <= i < |filters| ensures legs[i] == FilterScan(b.Norm(), docs, filters[i]) {
        b.memory.AnswerIsScan(docs, filters[i].dimension, filters[i].value);
      }
      JoinIsMatching(b.Norm(), docs, filters, legs);
    }
  }

  lemma {:induction false} MatchingAll(norm: string -> string, docs: seq<Doc>, among: seq<Doc>)
    ensures Matching(norm, docs, [], among) == among
  {
    if among != [] {
      MatchingAll(norm, docs, among[..|among| - 1]);
    }
  }
}
