/** The graph backend (internal/store ladybug): chunks stored under a content hash, embedded only when
    new, and a structured subgraph rebuilt at every index, all in one transaction. */
module Ladybug {
  import opened Options
  import opened Structured
  import opened Content
  import Graph
  import GraphOrder

  /** A stored chunk; the embedding is None in a table without that column. */
  datatype Row = Row(source: string, text: string, embedding: Option<Vector>)

  /** The Chunk table. `width` is its embedding column's, zero without one. */
  datatype Table = Table(width: nat, rows: map<string, Row>)

  datatype Pending = Pending(source: string, text: string, hash: string)

  datatype Fault = NoFault | ReadFails | EmbedFails | BeginFails | WriteFails | VectorIndexFails

  /** How an index ends: committed, committed without its search indexes, rolled back, or with the
      process. */
  datatype Outcome = Indexed | Unsearchable | Failed | Crashed

  const UPSERT_BATCH := 100

  // ---------- Content hashes ----------

  ghost predicate NoNuls(chunks: seq<Chunk>) {
    forall c :: c in chunks ==> '\0' !in c.source
  }

  ghost predicate CollisionFree(hash: string -> string) {
    forall s: string, t: string :: hash(s) == hash(t) ==> s == t
  }

  function HashOf(hash: string -> string, c: Chunk): string {
    hash(ContentKey(c.source, c.text))
  }

  function RowFor(embedder: Option<string -> Vector>, c: Chunk): Row {
    Row(c.source, c.text, if embedder.Some? then Some(embedder.value(c.text)) else None)
  }

  /** The table holds exactly `chunks`, each with the embedding of its own text. */
  ghost predicate RowsAgree(hash: string -> string, embedder: Option<string -> Vector>, rows: map<string, Row>, chunks: seq<Chunk>) {
    && (forall c :: c in chunks ==> HashOf(hash, c) in rows && rows[HashOf(hash, c)] == RowFor(embedder, c))
    && (forall h :: h in rows ==> exists c :: c in chunks && HashOf(hash, c) == h)
  }

  lemma RowsAreUnique(hash: string -> string, embedder: Option<string -> Vector>, r: map<string, Row>, s: map<string, Row>, chunks: seq<Chunk>)
    requires RowsAgree(hash, embedder, r, chunks) && RowsAgree(hash, embedder, s, chunks)
    ensures r == s
  {
    forall h | h in r ensures h in s && r[h] == s[h] {
      var c :| c in chunks && HashOf(hash, c) == h;
    }
    forall h | h in s ensures h in r {
      var c :| c in chunks && HashOf(hash, c) == h;
    }
  }

  // ---------- The delta ----------

  function Staged(hash: string -> string, c: Chunk): Pending {
    Pending(c.source, c.text, HashOf(hash, c))
  }

  function AllStaged(hash: string -> string, chunks: seq<Chunk>): (r: seq<Pending>)
    ensures |r| == |chunks| && forall i :: 0 <= i < |r| ==> r[i] == Staged(hash, chunks[i])
  {
    seq(|chunks|, i requires 0 <= i < |chunks| => Staged(hash, chunks[i]))
  }

  method Collect(hash: string -> string, docs: seq<Doc>) returns (all: seq<Pending>, have: set<string>)
    ensures all == AllStaged(hash, ChunksOf(docs))
    ensures forall h :: h in have <==> exists c :: c in ChunksOf(docs) && HashOf(hash, c) == h
  {
    all, have := [], {};
    ghost var chunks: seq<Chunk> := [];
    for i := 0 to |docs|
      invariant chunks == ChunksOf(docs[..i]) && all == AllStaged(hash, chunks)
      invariant forall h :: h in have <==> exists c :: c in chunks && HashOf(hash, c) == h
    {
      assert docs[..i + 1][..i] == docs[..i];
      ghost var before := chunks;
      for j := 0 to |docs[i].chunks|
        invariant chunks == before + docs[i].chunks[..j] && all == AllStaged(hash, chunks)
        invariant forall h :: h in have <==> exists c :: c in chunks && HashOf(hash, c) == h
      {
        var c := docs[i].chunks[j];
        assert docs[i].chunks[..j + 1] == docs[i].chunks[..j] + [c];
        assert forall x :: x in chunks + [c] <==> x in chunks || x == c;
        all, have := all + [Staged(hash, c)], have + {HashOf(hash, c)};
        chunks := chunks + [c];
      }
    }
    assert docs[..|docs|] == docs;
  }

  /** What is staged and not stored yet. */
  method Missing(all: seq<Pending>, stored: set<string>) returns (toEmbed: seq<Pending>, texts: seq<string>)
    ensures forall p :: p in toEmbed <==> p in all && p.hash !in stored
    ensures |texts| == |toEmbed| && forall i :: 0 <= i < |texts| ==> texts[i] == toEmbed[i].text
  {
    toEmbed, texts := [], [];
    for i := 0 to |all|
      invariant forall p :: p in toEmbed <==> p in all[..i] && p.hash !in stored
      invariant |texts| == |toEmbed| && forall k :: 0 <= k < |texts| ==> texts[k] == toEmbed[k].text
    {
      assert all[..i + 1] == all[..i] + [all[i]];
      if all[i].hash !in stored {
        toEmbed, texts := toEmbed + [all[i]], texts + [all[i].text];
      }
    }
    assert all[..|all|] == all;
  }

  function Upsert(p: Pending, embedding: Option<Vector>): (string, Row) {
    (p.hash, Row(p.source, p.text, embedding))
  }

  function Upserts(toEmbed: seq<Pending>, vectors: seq<Vector>, withEmbedding: bool): (r: seq<(string, Row)>)
    requires withEmbedding ==> |vectors| == |toEmbed|
    ensures |r| == |toEmbed|
    ensures forall i :: 0 <= i < |r| ==> r[i] == Upsert(toEmbed[i], if withEmbedding then Some(vectors[i]) else None)
  {
    seq(|toEmbed|, i requires 0 <= i < |toEmbed| => Upsert(toEmbed[i], if withEmbedding then Some(vectors[i]) else None))
  }

  /** The rows of one statement. */
  method Batch(toEmbed: seq<Pending>, vectors: seq<Vector>, withEmbedding: bool, start: nat, end: nat) returns (batch: seq<(string, Row)>)
    requires start <= end <= |toEmbed| && (withEmbedding ==> |vectors| == |toEmbed|)
    ensures batch == Upserts(toEmbed, vectors, withEmbedding)[start..end]
  {
    ghost var all := Upserts(toEmbed, vectors, withEmbedding);
    batch := [];
    for i := start to end
      invariant batch == all[start..i]
    {
      assert all[start..i + 1] == all[start..i] + [all[i]];
      batch := batch + [Upsert(toEmbed[i], if withEmbedding then Some(vectors[i]) else None)];
    }
  }

  /** upsertChunks: a batch of rows for each statement, each overwriting what has its hash. */
  method UpsertChunks(rows: map<string, Row>, toEmbed: seq<Pending>, vectors: seq<Vector>, withEmbedding: bool) returns (out: map<string, Row>)
    requires withEmbedding ==> |vectors| == |toEmbed|
    ensures out == rows + Graph.Merged(Upserts(toEmbed, vectors, withEmbedding))
  {
    ghost var all := Upserts(toEmbed, vectors, withEmbedding);
    out := rows;
    var start := 0;
    while start < |toEmbed|
      invariant start <= |toEmbed| && out == rows + Graph.Merged(all[..start])
    {
      var end := start + UPSERT_BATCH;
      if end > |toEmbed| {
        end := |toEmbed|;
      }
      var batch := Batch(toEmbed, vectors, withEmbedding, start, end);
      NextBatch(rows, all, start, end);
      out := out + Graph.Merged(batch);
      start := end;
    }
    assert all[..|toEmbed|] == all;
  }

  lemma NextBatch(rows: map<string, Row>, all: seq<(string, Row)>, start: nat, end: nat)
    requires start <= end <= |all|
    ensures rows + Graph.Merged(all[..start]) + Graph.Merged(all[start..end]) == rows + Graph.Merged(all[..end])
  {
    Graph.MergedInTurn(all[..start], all[start..end]);
    assert all[..start] + all[start..end] == all[..end];
  }

  function Pruned(rows: map<string, Row>, have: set<string>): map<string, Row> {
    map h | h in rows && h in have :: rows[h]
  }

  /** Upserting what is missing and pruning what is gone leaves what a fresh index writes: a stored
      hash already holds its chunk's own row. */
  lemma DeltaIsFresh(hash: string -> string, embedder: Option<string -> Vector>, before: seq<Chunk>, chunks: seq<Chunk>,
                     rows: map<string, Row>, staged: seq<(string, Row)>, have: set<string>)
    requires CollisionFree(hash) && NoNuls(before) && NoNuls(chunks) && RowsAgree(hash, embedder, rows, before)
    requires forall h :: h in have <==> exists c :: c in chunks && HashOf(hash, c) == h
    requires forall s :: s in staged <==> exists c :: c in chunks && HashOf(hash, c) !in rows && s == (HashOf(hash, c), RowFor(embedder, c))
    ensures RowsAgree(hash, embedder, Pruned(rows + Graph.Merged(staged), have), chunks)
  {
    var merged := Graph.Merged(staged);
    var out := Pruned(rows + merged, have);
    Graph.MergedMembers(staged);
    forall c | c in chunks ensures HashOf(hash, c) in out && out[HashOf(hash, c)] == RowFor(embedder, c) {
      var h := HashOf(hash, c);
      if h in rows {
        var b :| b in before && HashOf(hash, b) == h;
        KeyNamesChunk(b, c);
        assert h !in merged;
      } else {
        assert (h, RowFor(embedder, c)) in staged;
        assert (h, merged[h]) in staged;
        var d :| d in chunks && (h, merged[h]) == (HashOf(hash, d), RowFor(embedder, d));
        KeyNamesChunk(c, d);
      }
    }
  }

  lemma SomeMember<T>(s: seq<T>)
    ensures s == [] || exists x :: x in s
  {
    if s != [] {
      assert s[0] in s;
    }
  }

  // ---------- What an index does, without its hashes ----------

  /** What decides how an index ends: whether there is an embedder, whether the chunk table is made and
      has an embedding column, and the documents of the last index that was committed. */
  datatype Summary = Summary(embeds: bool, made: bool, column: bool, held: seq<Doc>)

  /** Some chunk of `docs` is not among those held. */
  ghost predicate HasNew(held: seq<Doc>, docs: seq<Doc>) {
    exists c :: c in ChunksOf(docs) && c !in ChunksOf(held)
  }

  /** The stored hashes can be read and what is new can be embedded. */
  ghost predicate Prepares(s: Summary, docs: seq<Doc>, fault: Fault) {
    && (fault == ReadFails ==> !s.made)
    && (fault == EmbedFails ==> !s.embeds || !HasNew(s.held, docs))
  }

  /** The table is made by the first index that gets that far, whether or not it is then committed;
      it has the column if something was embedded by then. */
  ghost predicate ColumnFor(s: Summary, docs: seq<Doc>) {
    if s.made then s.column else s.embeds && HasNew(s.held, docs)
  }

  /** A new chunk has no vector to go in the column of a store opened without an embedder. */
  ghost predicate Crashes(s: Summary, docs: seq<Doc>, fault: Fault) {
    Prepares(s, docs, fault) && fault != BeginFails && !s.embeds && ColumnFor(s, docs) && HasNew(s.held, docs)
  }

  /** What an index needs to be committed: what is new is embedded exactly when there is a column. */
  ghost predicate Commits(s: Summary, docs: seq<Doc>, fault: Fault) {
    && Prepares(s, docs, fault) && fault != BeginFails && fault != WriteFails
    && (HasNew(s.held, docs) ==> ColumnFor(s, docs) == s.embeds)
  }

  /** Nothing an index does before it writes fails. */
  ghost predicate Works(s: Summary, docs: seq<Doc>, fault: Fault) {
    && (fault == ReadFails ==> !s.made) && fault != BeginFails
    && (fault == EmbedFails && s.embeds ==> forall c :: c in ChunksOf(docs) ==> c in ChunksOf(s.held))
  }

  /** Every chunk is held already, or the table is still to be made, or it has a column exactly if there
      is an embedder. */
  ghost predicate Fits(s: Summary, docs: seq<Doc>) {
    (forall c :: c in ChunksOf(docs) ==> c in ChunksOf(s.held)) || !s.made || s.column == s.embeds
  }

  /** So those are the indexes that are committed, whether or not they have anything new. */
  lemma WhenCommitted(s: Summary, docs: seq<Doc>, fault: Fault)
    requires s.column ==> s.made
    ensures Commits(s, docs, fault) <==> Works(s, docs, fault) && fault != WriteFails && Fits(s, docs)
    ensures Crashes(s, docs, fault) <==> Works(s, docs, fault) && !Fits(s, docs) && !s.embeds
    ensures AfterIndex(s, docs, fault).held == if Commits(s, docs, fault) then docs else s.held
  {
  }

  ghost function AfterIndex(s: Summary, docs: seq<Doc>, fault: Fault): Summary {
    if Prepares(s, docs, fault) then Summary(s.embeds, true, ColumnFor(s, docs), if Commits(s, docs, fault) then docs else s.held) else s
  }

  /** An index without embeddings cannot serve an embedder. */
  predicate Opens(s: Summary, embeds: bool) {
    !s.made || s.column || !embeds
  }

  // ---------- The store ----------

  class Store {
    const norm: string -> string
    const hash: string -> string
    /** The embedding model, and how wide its vectors are. */
    const model: string -> Vector
    ghost const width: nat
    /** None for a keyword-only store. */
    var embedder: Option<string -> Vector>
    var dim: nat
    var table: Option<Table>
    var graph: Graph.Tables
    /** The documents of the last index that was committed. */
    ghost var held: seq<Doc>

    function Rows(): map<string, Row>
      reads this
    {
      if table.None? then map[] else table.value.rows
    }

    /** The table has the column embeddings go in. */
    predicate HasColumn()
      reads this
    {
      table.Some? && table.value.width > 0
    }

    /** What made the stored embeddings. */
    function Vectors(): Option<string -> Vector>
      reads this
    {
      if HasColumn() then Some(model) else None
    }

    ghost function Summarized(): Summary
      reads this
    {
      Summary(embedder.Some?, table.Some?, HasColumn(), held)
    }

    /** What is in the database is what a fresh index of the held documents puts there. */
    ghost predicate Durable()
      reads this
    {
      && Graph.NoBars(norm) && CollisionFree(hash) && width > 0 && (forall t: string :: |model(t)| == width)
      && (embedder.Some? ==> embedder.value == model)
      && (table.Some? ==> table.value.width in {0, width}) && (table.None? ==> held == [])
      && NoNuls(ChunksOf(held)) && RowsAgree(hash, Vectors(), Rows(), ChunksOf(held)) && Graph.Agrees(norm, graph, held)
    }

    /** An open store; with an embedder and no column it has never been given a chunk. */
    ghost predicate Valid()
      reads this
    {
      && Durable()
      && (table.None? ==> dim == 0)
      && (HasColumn() ==> dim == width)
      && (table.Some? && !HasColumn() ==> dim == 0 || (embedder.Some? && dim == width))
      && (embedder.Some? && table.Some? && !HasColumn() ==> ChunksOf(held) == [])
    }

    constructor (norm: string -> string, hash: string -> string, model: string -> Vector, ghost width: nat, embeds: bool)
      requires Graph.NoBars(norm) && CollisionFree(hash) && width > 0 && forall t: string :: |model(t)| == width
      ensures Valid() && Summarized() == Summary(embeds, false, false, [])
      ensures this.norm == norm && this.hash == hash && this.model == model && this.width == width
    {
      this.norm, this.hash, this.model, this.width := norm, hash, model, width;
      embedder := if embeds then Some(model) else None;
      dim, table, graph, held := 0, None, Graph.EMPTY, [];
    }

    /** The dimension is read back from the stored column. */
    method LoadDim() returns (ok: bool)
      modifies `dim
      ensures ok == (table.None? || HasColumn() || embedder.None?)
      ensures dim == if HasColumn() then table.value.width else 0
    {
      dim := 0;
      if table.None? {
        return true;
      }
      if table.value.width > 0 {
        dim := table.value.width;
        return true;
      }
      return embedder.None?;
    }

    /** A restart, with an embedder or without, whatever the start before had. */
    method Reopen(embeds: bool) returns (ok: bool)
      requires Durable()
      modifies `dim, `embedder
      ensures Durable() && ok == Opens(Summarized(), embeds) && (ok ==> Valid())
      ensures Summarized() == old(Summarized()).(embeds := embeds)
    {
      embedder := if embeds then Some(model) else None;
      ok := LoadDim();
    }

    method EmbedTexts(texts: seq<string>, works: bool) returns (ok: bool, vectors: seq<Vector>)
      requires Valid()
      modifies `dim
      ensures ok == (works || embedder.None? || texts == [])
      ensures dim == if ok && embedder.Some? && texts != [] then width else old(dim)
      ensures ok && embedder.Some? ==> |vectors| == |texts| && forall i :: 0 <= i < |texts| ==> vectors[i] == model(texts[i])
      ensures embedder.None? ==> vectors == []
    {
      vectors := [];
      if embedder.None? || |texts| == 0 {
        return true, [];
      }
      if !works {
        return false, [];
      }
      var embed := embedder.value;
      vectors := seq(|texts|, i requires 0 <= i < |texts| => embed(texts[i]));
      dim := |vectors[0]|;
      ok := true;
    }

    /** The table is made once, with the column if the dimension is known by then. */
    method EnsureChunkTable()
      modifies `table
      ensures table == if old(table).Some? then old(table) else Some(Table(dim, map[]))
    {
      if table.None? {
        table := Some(Table(dim, map[]));
      }
    }

    /** What is new, with its embeddings, and the hashes to keep. */
    ghost predicate StagedFor(docs: seq<Doc>, toEmbed: seq<Pending>, vectors: seq<Vector>, have: set<string>)
      reads this
    {
      && (forall p :: p in toEmbed <==> p in AllStaged(hash, ChunksOf(docs)) && p.hash !in Rows())
      && (embedder.Some? ==> |vectors| == |toEmbed| && forall i :: 0 <= i < |toEmbed| ==> vectors[i] == model(toEmbed[i].text))
      && (embedder.None? ==> vectors == [])
      && (forall h :: h in have <==> exists c :: c in ChunksOf(docs) && HashOf(hash, c) == h)
    }

    method Stage(docs: seq<Doc>) returns (toEmbed: seq<Pending>, texts: seq<string>, have: set<string>)
      requires Valid() && NoNuls(ChunksOf(docs))
      ensures forall p :: p in toEmbed <==> p in AllStaged(hash, ChunksOf(docs)) && p.hash !in Rows()
      ensures |texts| == |toEmbed| && forall i :: 0 <= i < |texts| ==> texts[i] == toEmbed[i].text
      ensures forall h :: h in have <==> exists c :: c in ChunksOf(docs) && HashOf(hash, c) == h
      ensures toEmbed != [] <==> HasNew(held, docs)
    {
      var all;
      all, have := Collect(hash, docs);
      toEmbed, texts := Missing(all, Rows().Keys);
      MissingIsNew(docs, toEmbed);
    }

    method Prepare(docs: seq<Doc>, fault: Fault) returns (ready: bool, toEmbed: seq<Pending>, vectors: seq<Vector>, have: set<string>)
      requires Valid() && NoNuls(ChunksOf(docs))
      modifies `dim, `table
      ensures Valid() && Rows() == old(Rows()) && ready == Prepares(old(Summarized()), docs, fault)
      ensures Summarized() == if ready then old(Summarized()).(made := true, column := ColumnFor(old(Summarized()), docs)) else old(Summarized())
      ensures ready ==> StagedFor(docs, toEmbed, vectors, have) && (toEmbed != [] <==> HasNew(held, docs))
      ensures ready && embedder.Some? && toEmbed != [] ==> dim == width
      ensures old(table).None? ==> dim == 0 || HasColumn()
    {
      ready, toEmbed, vectors, have := false, [], [], {};
      if table.Some? && fault == ReadFails {
        return;
      }
      var texts;
      toEmbed, texts, have := Stage(docs);
      ready, vectors := EmbedTexts(texts, fault != EmbedFails);
      if ready {
        EnsureChunkTable();
      }
    }

    /** A chunk is stored exactly if it is held. */
    lemma StoredIsHeld(c: Chunk)
      requires Durable() && '\0' !in c.source
      ensures HashOf(hash, c) in Rows() <==> c in ChunksOf(held)
    {
      if HashOf(hash, c) in Rows() {
        var d :| d in ChunksOf(held) && HashOf(hash, d) == HashOf(hash, c);
        KeyNamesChunk(c, d);
      }
    }

    lemma MissingIsNew(docs: seq<Doc>, toEmbed: seq<Pending>)
      requires Durable() && NoNuls(ChunksOf(docs))
      requires forall p :: p in toEmbed <==> p in AllStaged(hash, ChunksOf(docs)) && p.hash !in Rows()
      ensures toEmbed != [] <==> HasNew(held, docs)
    {
      var chunks, all := ChunksOf(docs), AllStaged(hash, ChunksOf(docs));
      if toEmbed != [] {
        assert toEmbed[0] in toEmbed;
        var i :| 0 <= i < |all| && all[i] == toEmbed[0];
        assert chunks[i] in chunks;
        StoredIsHeld(chunks[i]);
      }
      if HasNew(held, docs) {
        var c :| c in chunks && c !in ChunksOf(held);
        StoredIsHeld(c);
        var i :| 0 <= i < |chunks| && chunks[i] == c;
        assert all[i] in toEmbed;
      }
    }

    lemma UpsertsAreNew(docs: seq<Doc>, toEmbed: seq<Pending>, vectors: seq<Vector>, have: set<string>, withEmbedding: bool)
      requires Durable() && StagedFor(docs, toEmbed, vectors, have)
      requires withEmbedding ==> |vectors| == |toEmbed|
      requires toEmbed != [] ==> withEmbedding == HasColumn() == embedder.Some?
      ensures forall s :: s in Upserts(toEmbed, vectors, withEmbedding) <==>
        exists c :: c in ChunksOf(docs) && HashOf(hash, c) !in Rows() && s == (HashOf(hash, c), RowFor(Vectors(), c))
    {
      var chunks, all := ChunksOf(docs), AllStaged(hash, ChunksOf(docs));
      var upserts := Upserts(toEmbed, vectors, withEmbedding);
      forall s | s in upserts
        ensures exists c :: c in chunks && HashOf(hash, c) !in Rows() && s == (HashOf(hash, c), RowFor(Vectors(), c))
      {
        var k :| 0 <= k < |upserts| && upserts[k] == s;
        assert toEmbed[k] in toEmbed;
        var i :| 0 <= i < |all| && all[i] == toEmbed[k];
        assert chunks[i] in chunks && s == (HashOf(hash, chunks[i]), RowFor(Vectors(), chunks[i]));
      }
      forall c | c in chunks && HashOf(hash, c) !in Rows()
        ensures (HashOf(hash, c), RowFor(Vectors(), c)) in upserts
      {
        var i :| 0 <= i < |chunks| && chunks[i] == c;
        assert all[i] in toEmbed;
        var k :| 0 <= k < |toEmbed| && toEmbed[k] == all[i];
        assert upserts[k] == (HashOf(hash, c), RowFor(Vectors(), c));
      }
    }

    /** With nothing held and nothing new there are no chunks. */
    lemma NoneNew(docs: seq<Doc>)
      requires ChunksOf(held) == [] && !HasNew(held, docs)
      ensures ChunksOf(docs) == []
    {
      SomeMember(ChunksOf(docs));
    }

    /** The transaction: upsert what is new, prune what is gone, rebuild the structured graph. */
    method Write(docs: seq<Doc>, toEmbed: seq<Pending>, vectors: seq<Vector>, have: set<string>)
      requires Valid() && NoNuls(ChunksOf(docs)) && table.Some? && StagedFor(docs, toEmbed, vectors, have)
      requires toEmbed != [] ==> HasColumn() == embedder.Some?
      requires toEmbed != [] <==> HasNew(held, docs)
      modifies `table, `graph, `held
      ensures Valid() && Summarized() == old(Summarized()).(held := docs)
    {
      var withEmbedding := dim > 0 && |toEmbed| > 0;
      UpsertsAreNew(docs, toEmbed, vectors, have, withEmbedding);
      DeltaIsFresh(hash, Vectors(), ChunksOf(held), ChunksOf(docs), Rows(), Upserts(toEmbed, vectors, withEmbedding), have);
      var rows := UpsertChunks(table.value.rows, toEmbed, vectors, withEmbedding);
      var rebuilt := Graph.Rebuild(norm, docs);
      if embedder.Some? && !HasColumn() {
        NoneNew(docs);
      }
      table, graph, held := Some(Table(table.value.width, Pruned(rows, have))), rebuilt, docs;
    }

    /** However it ends, the store goes on holding exactly one indexed set of documents; an error after
        the commit leaves the new one. It is committed unless something it does fails, whether or not any
        chunk is new; what is new must have its vector exactly when there is a column for it. */
    method Index(docs: seq<Doc>, fault: Fault) returns (outcome: Outcome)
      requires Valid() && NoNuls(ChunksOf(docs))
      modifies this
      ensures Works(old(Summarized()), docs, fault) && fault != WriteFails && Fits(old(Summarized()), docs) ==>
        outcome in {Indexed, Unsearchable} && held == docs
      ensures !(Works(old(Summarized()), docs, fault) && fault != WriteFails && Fits(old(Summarized()), docs)) ==>
        outcome in {Failed, Crashed} && held == old(held)
      ensures outcome == Crashed <==> Works(old(Summarized()), docs, fault) && !Fits(old(Summarized()), docs) && embedder.None?
      ensures Valid() && Summarized() == AfterIndex(old(Summarized()), docs, fault)
      ensures outcome in {Indexed, Unsearchable} <==> Commits(old(Summarized()), docs, fault)
      ensures outcome == Crashed <==> Crashes(old(Summarized()), docs, fault)
      ensures outcome == Unsearchable ==> dim > 0 && (!HasColumn() || fault == VectorIndexFails)
      ensures outcome == Indexed ==> !(dim > 0 && (!HasColumn() || fault == VectorIndexFails))
      ensures old(table).None? ==> dim == 0 || HasColumn()
      ensures outcome !in {Indexed, Unsearchable} ==> graph == old(graph) && Rows() == old(Rows())
    {
      WhenCommitted(Summarized(), docs, fault);
      var ready, toEmbed, vectors, have := Prepare(docs, fault);
      if !ready || fault == BeginFails {
        return Failed;
      }
      if dim > 0 && |toEmbed| > 0 && |vectors| == 0 {
        return Crashed;
      }
      // Any statement that fails rolls the whole transaction back.
      if fault == WriteFails || (dim > 0 && |toEmbed| > 0 && table.value.width == 0) {
        return Failed;
      }
      Write(docs, toEmbed, vectors, have);
      outcome := if dim > 0 && (fault == VectorIndexFails || table.value.width == 0) then Unsearchable else Indexed;
    }

    /** The structured queries answer as the in-memory store does. */
    method Enumerate(dim: string, value: string) returns (out: seq<DocRef>)
      requires Valid() && DistinctPaths(held)
      ensures multiset(out) == multiset(EnumerateScan(norm, held, dim, value))
    {
      out := Graph.Enumerate(norm, graph, held, dim, value);
    }

    method Ordered(space: char -> bool, field: string, dir: Direction, limit: int) returns (out: seq<DocRef>)
      requires Valid() && DistinctPaths(held)
      ensures GraphOrder.Blank(field, space) ==> out == []
      ensures !GraphOrder.Blank(field, space) ==>
        exists rows :: GraphOrder.Recalled(graph, field, dir, rows) && out == Capped(Refs(GraphOrder.Entries(graph, rows)), limit)
      ensures !GraphOrder.Blank(field, space) && GraphOrder.OrdinalsApart(held) ==> out == OrderedScan(held, field, dir, limit)
    {
      out := GraphOrder.Ordered(norm, space, graph, held, field, dir, limit);
    }
  }

  /** Both backends hold the same chunks, each with the same embedding, when what embeds for one is
      what embedded for the other. */
  lemma ChunksAreMemorys(s: Store, m: Memory)
    requires s.Durable() && m.Indexes(s.held) && (m.embedder == s.Vectors() || ChunksOf(s.held) == [])
    ensures forall i :: 0 <= i < |m.idx.value.chunks| ==>
      var c := m.idx.value.chunks[i];
      && HashOf(s.hash, c) in s.Rows()
      && s.Rows()[HashOf(s.hash, c)] == Row(c.source, c.text, if m.embedder.Some? then Some(m.idx.value.vectors[i]) else None)
    ensures forall h :: h in s.Rows() ==> exists c :: c in m.idx.value.chunks && HashOf(s.hash, c) == h
  {
    forall i | 0 <= i < |m.idx.value.chunks|
      ensures s.Rows()[HashOf(s.hash, m.idx.value.chunks[i])] == RowFor(s.Vectors(), m.idx.value.chunks[i])
    {
      assert m.idx.value.chunks[i] in ChunksOf(s.held);
    }
  }

  // ---------- Any run of indexes ----------

  /** A restart says whether an embedder is configured from then on. */
  datatype Call = Index(docs: seq<Doc>, fault: Fault) | Restart(embeds: bool)

  /** The process is up, or has crashed or refused to start; the database is there either way. */
  datatype Run = Run(open: bool, store: Summary)

  ghost function AfterCall(r: Run, call: Call): Run {
    match call
    case Index(docs, fault) =>
      if r.open then Run(!Crashes(r.store, docs, fault), AfterIndex(r.store, docs, fault)) else r
    case Restart(embeds) => Run(Opens(r.store, embeds), r.store.(embeds := embeds))
  }

  ghost function Reached(embeds: bool, calls: seq<Call>): Run {
    if calls == [] then Run(true, Summary(embeds, false, false, []))
    else AfterCall(Reached(embeds, calls[..|calls| - 1]), calls[|calls| - 1])
  }

  ghost predicate CommitsAt(embeds: bool, calls: seq<Call>, i: nat)
    requires i < |calls|
  {
    var r := Reached(embeds, calls[..i]);
    calls[i].Index? && r.open && Commits(r.store, calls[i].docs, calls[i].fault)
  }

  /** The documents held are those of the last index that was committed, and none before the first. */
  lemma {:induction false} HeldIsLastCommitted(embeds: bool, calls: seq<Call>) returns (last: int)
    ensures -1 <= last < |calls| && forall i :: last < i < |calls| ==> !CommitsAt(embeds, calls, i)
    ensures if last == -1 then Reached(embeds, calls).store.held == []
            else CommitsAt(embeds, calls, last) && Reached(embeds, calls).store.held == calls[last].docs
  {
    last := -1;
    if calls != [] {
      var n := |calls| - 1;
      var front := calls[..n];
      last := HeldIsLastCommitted(embeds, front);
      forall i | 0 <= i < n ensures CommitsAt(embeds, front, i) <==> CommitsAt(embeds, calls, i) {
        assert front[..i] == calls[..i];
      }
      if CommitsAt(embeds, calls, n) {
        last := n;
      }
    }
  }

  /** Restarts and indexes without a fault, all with an embedder or all without. */
  predicate Steady(embeds: bool, calls: seq<Call>) {
    forall i :: 0 <= i < |calls| ==> if calls[i].Index? then calls[i].fault == NoFault else calls[i].embeds == embeds
  }

  /** When the first index has something to embed, every later one is committed as long as nothing fails:
      whatever else was indexed before, the store holds the documents of the last one. */
  lemma {:induction false} SteadyRunHoldsLast(embeds: bool, calls: seq<Call>, last: nat)
    requires last < |calls| && Steady(embeds, calls)
    requires calls[0].Index? && (embeds ==> ChunksOf(calls[0].docs) != [])
    requires calls[last].Index? && forall i :: last < i < |calls| ==> calls[i].Restart?
    ensures Reached(embeds, calls) == Run(true, Summary(embeds, true, embeds, calls[last].docs))
  {
    var n := |calls| - 1;
    var front := calls[..n];
    if n == 0 {
      FirstMakesColumn(embeds, calls);
    } else if last < n {
      SteadyRunHoldsLast(embeds, front, last);
    } else {
      var before := LastIndex(front);
      SteadyRunHoldsLast(embeds, front, before);
    }
  }

  lemma FirstMakesColumn(embeds: bool, calls: seq<Call>)
    requires |calls| == 1 && calls[0].Index? && calls[0].fault == NoFault && (embeds ==> ChunksOf(calls[0].docs) != [])
    ensures Reached(embeds, calls) == Run(true, Summary(embeds, true, embeds, calls[0].docs))
  {
    assert calls[..0] == [];
    if embeds {
      assert ChunksOf(calls[0].docs)[0] in ChunksOf(calls[0].docs);
      assert HasNew([], calls[0].docs);
    }
  }

  lemma {:induction false} LastIndex(calls: seq<Call>) returns (last: nat)
    requires calls != [] && calls[0].Index?
    ensures last < |calls| && calls[last].Index? && forall i :: last < i < |calls| ==> calls[i].Restart?
  {
    if calls[|calls| - 1].Index? {
      last := |calls| - 1;
    } else {
      last := LastIndex(calls[..|calls| - 1]);
    }
  }

  /** Runs `calls` on a new store. */
  method RunCalls(norm: string -> string, hash: string -> string, model: string -> Vector, ghost width: nat, embeds: bool, calls: seq<Call>)
    returns (run: Store, open: bool)
    requires Graph.NoBars(norm) && CollisionFree(hash) && width > 0 && forall t: string :: |model(t)| == width
    requires forall i :: 0 <= i < |calls| && calls[i].Index? ==> NoNuls(ChunksOf(calls[i].docs))
    ensures fresh(run) && run.Durable() && run.norm == norm && run.hash == hash && run.model == model && run.width == width
    ensures Run(open, run.Summarized()) == Reached(embeds, calls) && (open ==> run.Valid())
  {
    run := new Store(norm, hash, model, width, embeds);
    open := true;
    for i := 0 to |calls|
      invariant fresh(run) && run.Durable() && (open ==> run.Valid())
      invariant run.norm == norm && run.hash == hash && run.model == model && run.width == width
      invariant Run(open, run.Summarized()) == Reached(embeds, calls[..i])
    {
      assert calls[..i + 1][..i] == calls[..i];
      match calls[i]
      case Index(docs, fault) =>
        if open {
          var outcome := run.Index(docs, fault);
          open := outcome != Crashed;
        }
      case Restart(withEmbedder) =>
        open := run.Reopen(withEmbedder);
    }
    assert calls[..|calls|] == calls;
  }

  /** After any run of indexes, faults, crashes and restarts, a new store that is given just the last
      committed documents, once, ends up with the same chunks, the same embeddings and the same graph. */
  method RunAndRebuild(norm: string -> string, hash: string -> string, model: string -> Vector, ghost width: nat, embeds: bool,
                       calls: seq<Call>, last: seq<Doc>)
    returns (run: Store, once: Store, outcome: Outcome)
    requires Graph.NoBars(norm) && CollisionFree(hash) && width > 0 && forall t: string :: |model(t)| == width
    requires forall i :: 0 <= i < |calls| && calls[i].Index? ==> NoNuls(ChunksOf(calls[i].docs))
    requires last == Reached(embeds, calls).store.held
    ensures run.Durable() && run.Summarized() == Reached(embeds, calls).store
    ensures outcome == Indexed && once.Valid()
    ensures once.Summarized() == Reached(run.HasColumn(), [Index(last, NoFault)]).store && once.held == last
    ensures run.Rows() == once.Rows() && run.graph == once.graph
  {
    var open;
    run, open := RunCalls(norm, hash, model, width, embeds, calls);
    once := new Store(norm, hash, model, width, run.HasColumn());
    ghost var start := once.Summarized();
    assert [Index(last, NoFault)][..0] == [];
    outcome := once.Index(last, NoFault);
    if ChunksOf(last) != [] {
      assert ChunksOf(last)[0] in ChunksOf(last);
    }
    RowsAreUnique(hash, run.Vectors(), run.Rows(), once.Rows(), ChunksOf(last));
    Graph.TablesAreUnique(norm, run.graph, once.graph, last);
  }
}
