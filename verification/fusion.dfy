/** Hybrid retrieval (internal/retrieval planner): Reciprocal Rank Fusion over exact rationals. */
module Fusion {
  import opened Options
  import opened Structured
  import opened Content
  import Sorting

  const RRF_K := 60

  function Key(c: Chunk): string {
    ContentKey(c.source, c.text)
  }

  /** A chunk at its place in one leg, counted from zero. */
  datatype Hit = Hit(chunk: Chunk, rank: nat)

  datatype Agg = Agg(chunk: Chunk, score: real, order: nat)

  function Weight(rank: nat): real {
    1.0 / (RRF_K + rank) as real
  }

  // ---------- What fusion computes ----------

  function HitsOf(leg: seq<Chunk>): (r: seq<Hit>)
    ensures |r| == |leg| && forall i :: 0 <= i < |r| ==> r[i] == Hit(leg[i], i)
  {
    seq(|leg|, i requires 0 <= i < |leg| => Hit(leg[i], i))
  }

  /** Every hit, leg after leg. */
  function Hits(legs: seq<seq<Chunk>>): seq<Hit> {
    if legs == [] then [] else Hits(legs[..|legs| - 1]) + HitsOf(legs[|legs| - 1])
  }

  /** The fused score of a key: the weights of all its hits. */
  function ScoreOf(hits: seq<Hit>, key: string): real {
    if hits == [] then 0.0
    else
      var last := hits[|hits| - 1];
      ScoreOf(hits[..|hits| - 1], key) + (if Key(last.chunk) == key then Weight(last.rank) else 0.0)
  }

  /** The first hit of every key, in the order they were first seen. */
  function Firsts(hits: seq<Hit>): (r: seq<Chunk>)
    ensures forall c :: c in r ==> exists h :: h in hits && h.chunk == c
  {
    if hits == [] then []
    else
      var last := hits[|hits| - 1].chunk;
      var front := Firsts(hits[..|hits| - 1]);
      assert hits == hits[..|hits| - 1] + [hits[|hits| - 1]];
      if exists c :: c in front && Key(c) == Key(last) then front else front + [last]
  }

  /** Every chunk found, once, with its score and its place in that order. */
  function Aggs(hits: seq<Hit>): (r: seq<Agg>)
    ensures |r| == |Firsts(hits)|
    ensures forall i :: 0 <= i < |r| ==> r[i] == Agg(Firsts(hits)[i], ScoreOf(hits, Key(Firsts(hits)[i])), i)
  {
    var firsts := Firsts(hits);
    seq(|firsts|, i requires 0 <= i < |firsts| => Agg(firsts[i], ScoreOf(hits, Key(firsts[i])), i))
  }

  predicate Ahead(a: Agg, b: Agg) {
    a.score > b.score || (a.score == b.score && a.order < b.order)
  }

  function ChunksIn(aggs: seq<Agg>): (r: seq<Chunk>)
    ensures |r| == |aggs| && forall i :: 0 <= i < |r| ==> r[i] == aggs[i].chunk
  {
    seq(|aggs|, i requires 0 <= i < |aggs| => aggs[i].chunk)
  }

  /** By score descending, then first seen. */
  function Fused(legs: seq<seq<Chunk>>): seq<Agg> {
    Sorting.StableSort(Aggs(Hits(legs)), Ahead)
  }

  lemma AheadOrders()
    ensures Sorting.WeakOrder(Ahead) && Sorting.Asymmetric(Ahead)
  {
    forall x, y, z | Sorting.AtMost(Ahead, x, y) && Sorting.AtMost(Ahead, y, z) ensures Sorting.AtMost(Ahead, x, z) {
    }
  }

  predicate OtherOrder(a: Agg, b: Agg) {
    a.order != b.order
  }

  lemma SortsStrictly(aggs: seq<Agg>)
    requires forall i, j :: 0 <= i < j < |aggs| ==> OtherOrder(aggs[i], aggs[j])
    ensures Sorting.Ascending(Sorting.StableSort(aggs, Ahead), Ahead)
  {
    AheadOrders();
    Sorting.StableSortOrdered(aggs, Ahead, OtherOrder);
    var s := Sorting.StableSort(aggs, Ahead);
    forall i, j | 0 <= i < j < |s| ensures Ahead(s[i], s[j]) {
      assert Sorting.InOrder(Ahead, OtherOrder, s[i], s[j]);
    }
  }

  /** The fused list is the only arrangement of the found chunks by score, then first seen. */
  lemma FusedIsUnique(legs: seq<seq<Chunk>>, s: seq<Agg>)
    requires multiset(s) == multiset(Aggs(Hits(legs))) && Sorting.Ascending(s, Ahead)
    ensures s == Fused(legs)
  {
    AheadOrders();
    SortsStrictly(Aggs(Hits(legs)));
    Sorting.AscendingUnique(s, Fused(legs), Ahead);
  }

  // ---------- The loops ----------

  ghost predicate Seen(hits: seq<Hit>, key: string) {
    exists c :: c in Firsts(hits) && Key(c) == key
  }

  predicate OtherKey(c: Chunk, d: Chunk) {
    Key(c) != Key(d)
  }

  ghost predicate KeysApart(s: seq<Chunk>) {
    forall i, j :: 0 <= i < j < |s| ==> OtherKey(s[i], s[j])
  }

  lemma KeysApartMore(s: seq<Chunk>, c: Chunk)
    requires KeysApart(s) && forall x :: x in s ==> OtherKey(x, c)
    ensures KeysApart(s + [c])
  {
  }

  lemma {:induction false} FirstsAreDistinct(hits: seq<Hit>)
    ensures KeysApart(Firsts(hits))
    ensures forall h :: h in hits ==> Seen(hits, Key(h.chunk))
  {
    if hits != [] {
      var front, last := hits[..|hits| - 1], hits[|hits| - 1];
      FirstsAreDistinct(front);
      assert hits == front + [last];
      if !Seen(front, Key(last.chunk)) {
        KeysApartMore(Firsts(front), last.chunk);
      }
      forall h | h in hits ensures Seen(hits, Key(h.chunk)) {
        if h in front {
          var c :| c in Firsts(front) && Key(c) == Key(h.chunk);
          assert c in Firsts(hits);
        } else {
          assert Seen(front, Key(last.chunk)) || last.chunk in Firsts(hits);
        }
      }
    }
  }

  ghost predicate HoldsAt(byKey: map<string, Agg>, a: Agg) {
    Key(a.chunk) in byKey && byKey[Key(a.chunk)] == a
  }

  /** The map holds exactly the aggregates, each under its key. */
  ghost predicate Holds(byKey: map<string, Agg>, hits: seq<Hit>) {
    var aggs := Aggs(hits);
    && (forall i :: 0 <= i < |aggs| ==> HoldsAt(byKey, aggs[i]))
    && (forall k :: k in byKey ==> byKey[k] in aggs && Key(byKey[k].chunk) == k)
  }

  lemma {:induction false} UnseenScoresNothing(hits: seq<Hit>, key: string)
    requires forall h :: h in hits ==> Key(h.chunk) != key
    ensures ScoreOf(hits, key) == 0.0
  {
    if hits != [] {
      UnseenScoresNothing(hits[..|hits| - 1], key);
    }
  }

  lemma ScoreWith(hits: seq<Hit>, h: Hit, key: string)
    ensures ScoreOf(hits + [h], key) == ScoreOf(hits, key) + if Key(h.chunk) == key then Weight(h.rank) else 0.0
    ensures Firsts(hits + [h]) == if Seen(hits, Key(h.chunk)) then Firsts(hits) else Firsts(hits) + [h.chunk]
  {
    assert (hits + [h])[..|hits|] == hits;
  }

  /** One hit more: its key's record gains the weight, or a new record starts with it. */
  function Counted(byKey: map<string, Agg>, h: Hit, seen: nat): map<string, Agg> {
    var key := Key(h.chunk);
    var a := if key in byKey then byKey[key] else Agg(h.chunk, 0.0, seen);
    byKey[key := a.(score := a.score + Weight(h.rank))]
  }

  lemma HeldIffSeen(byKey: map<string, Agg>, hits: seq<Hit>, key: string)
    requires Holds(byKey, hits)
    ensures key in byKey <==> Seen(hits, key)
  {
    var aggs := Aggs(hits);
    if key in byKey {
      var i :| 0 <= i < |aggs| && aggs[i] == byKey[key];
      assert Firsts(hits)[i] in Firsts(hits);
    }
    if Seen(hits, key) {
      var c :| c in Firsts(hits) && Key(c) == key;
      var i :| 0 <= i < |aggs| && Firsts(hits)[i] == c;
      assert Key(aggs[i].chunk) == key;
    }
  }

  lemma AggsOld(hits: seq<Hit>, h: Hit, i: nat)
    requires i < |Aggs(hits)|
    ensures i < |Aggs(hits + [h])|
    ensures var a := Aggs(hits)[i];
      Aggs(hits + [h])[i] == a.(score := a.score + if Key(a.chunk) == Key(h.chunk) then Weight(h.rank) else 0.0)
  {
    ScoreWith(hits, h, Key(Firsts(hits)[i]));
  }

  lemma AggsNew(hits: seq<Hit>, h: Hit)
    requires !Seen(hits, Key(h.chunk))
    ensures Aggs(hits + [h])[|Aggs(hits)|..] == [Agg(h.chunk, 0.0 + Weight(h.rank), |Firsts(hits)|)]
  {
    FirstsAreDistinct(hits);
    UnseenScoresNothing(hits, Key(h.chunk));
    ScoreWith(hits, h, Key(h.chunk));
    var aggs := Aggs(hits + [h]);
    assert |aggs| == |Aggs(hits)| + 1 && aggs[|Aggs(hits)|] == Agg(h.chunk, 0.0 + Weight(h.rank), |Firsts(hits)|);
  }

  /** A record there already, its score raised if the hit is its key's. */
  lemma OldHeld(byKey: map<string, Agg>, hits: seq<Hit>, h: Hit, i: nat)
    requires Holds(byKey, hits) && i < |Aggs(hits)|
    ensures i < |Aggs(hits + [h])| && HoldsAt(Counted(byKey, h, |Firsts(hits)|), Aggs(hits + [h])[i])
  {
    AggsOld(hits, h, i);
    assert HoldsAt(byKey, Aggs(hits)[i]);
  }

  /** The record of a key first seen in the hit. */
  lemma NewHeld(byKey: map<string, Agg>, hits: seq<Hit>, h: Hit)
    requires Holds(byKey, hits) && !Seen(hits, Key(h.chunk))
    ensures |Aggs(hits + [h])| == |Aggs(hits)| + 1
    ensures HoldsAt(Counted(byKey, h, |Firsts(hits)|), Aggs(hits + [h])[|Aggs(hits)|])
  {
    HeldIffSeen(byKey, hits, Key(h.chunk));
    AggsNew(hits, h);
    ScoreWith(hits, h, Key(h.chunk));
    assert Aggs(hits + [h])[|Aggs(hits)|] == Aggs(hits + [h])[|Aggs(hits)|..][0];
  }

  /** Nothing else is in the map. */
  lemma OnlyHeld(byKey: map<string, Agg>, hits: seq<Hit>, h: Hit, k: string)
    requires Holds(byKey, hits) && k in Counted(byKey, h, |Firsts(hits)|)
    ensures var out := Counted(byKey, h, |Firsts(hits)|); out[k] in Aggs(hits + [h]) && Key(out[k].chunk) == k
  {
    HeldIffSeen(byKey, hits, Key(h.chunk));
    if k in byKey {
      var i :| 0 <= i < |Aggs(hits)| && Aggs(hits)[i] == byKey[k];
      AggsOld(hits, h, i);
      OldHeld(byKey, hits, h, i);
    } else {
      NewHeld(byKey, hits, h);
    }
  }

  lemma CountHit(byKey: map<string, Agg>, hits: seq<Hit>, h: Hit)
    requires Holds(byKey, hits)
    ensures Holds(Counted(byKey, h, |Firsts(hits)|), hits + [h])
  {
    var out, aggs := Counted(byKey, h, |Firsts(hits)|), Aggs(hits + [h]);
    ScoreWith(hits, h, Key(h.chunk));
    forall i | 0 <= i < |aggs| ensures HoldsAt(out, aggs[i]) {
      if i < |Aggs(hits)| {
        OldHeld(byKey, hits, h, i);
      } else {
        NewHeld(byKey, hits, h);
      }
    }
    forall k | k in out ensures out[k] in aggs && Key(out[k].chunk) == k {
      OnlyHeld(byKey, hits, h, k);
    }
  }

  method CountOne(byKey: map<string, Agg>, seen: nat, h: Hit, ghost hits: seq<Hit>) returns (out: map<string, Agg>, total: nat)
    requires Holds(byKey, hits) && seen == |Firsts(hits)|
    ensures Holds(out, hits + [h]) && total == |Firsts(hits + [h])|
  {
    HeldIffSeen(byKey, hits, Key(h.chunk));
    CountHit(byKey, hits, h);
    ScoreWith(hits, h, Key(h.chunk));
    out := Counted(byKey, h, seen);
    total := if Key(h.chunk) in byKey then seen else seen + 1;
  }

  method CountLeg(byKey: map<string, Agg>, seen: nat, leg: seq<Chunk>, ghost hits: seq<Hit>) returns (out: map<string, Agg>, total: nat)
    requires Holds(byKey, hits) && seen == |Firsts(hits)|
    ensures Holds(out, hits + HitsOf(leg)) && total == |Firsts(hits + HitsOf(leg))|
  {
    out, total := byKey, seen;
    ghost var done := hits;
    assert hits + HitsOf(leg)[..0] == hits;
    for rank := 0 to |leg|
      invariant done == hits + HitsOf(leg)[..rank] && Holds(out, done) && total == |Firsts(done)|
    {
      var h := Hit(leg[rank], rank);
      assert hits + HitsOf(leg)[..rank + 1] == done + [h];
      out, total := CountOne(out, total, h, done);
      done := done + [h];
    }
    assert HitsOf(leg)[..|leg|] == HitsOf(leg);
  }

  /** The records in the order the map happens to give them. */
  method Records(byKey: map<string, Agg>, ghost hits: seq<Hit>) returns (fused: seq<Agg>)
    requires Holds(byKey, hits)
    ensures multiset(fused) == multiset(Aggs(hits))
  {
    fused := [];
    var keys := byKey.Keys;
    while keys != {}
      invariant keys <= byKey.Keys
      invariant forall a :: a in fused <==> Key(a.chunk) in byKey && Key(a.chunk) !in keys && byKey[Key(a.chunk)] == a
      invariant Sorting.Distinct(fused)
      decreases |keys|
    {
      var k :| k in keys;
      keys, fused := keys - {k}, fused + [byKey[k]];
    }
    Sorting.SameMembers(fused, Aggs(hits));
  }

  // ---------- Chunks, not keys ----------

  /** No chunk's source holds a NUL, as no path does. */
  ghost predicate NoNuls(legs: seq<seq<Chunk>>) {
    forall i, j :: 0 <= i < |legs| && 0 <= j < |legs[i]| ==> '\0' !in legs[i][j].source
  }

  ghost predicate Found(legs: seq<seq<Chunk>>, c: Chunk) {
    exists i :: 0 <= i < |legs| && c in legs[i]
  }

  lemma {:induction false} HitsAreFound(legs: seq<seq<Chunk>>, c: Chunk)
    ensures Found(legs, c) <==> exists h :: h in Hits(legs) && h.chunk == c
  {
    if legs != [] {
      var last := |legs| - 1;
      HitsAreFound(legs[..last], c);
      assert Found(legs, c) <==> Found(legs[..last], c) || c in legs[last];
      if c in legs[last] {
        var j :| 0 <= j < |legs[last]| && legs[last][j] == c;
        assert HitsOf(legs[last])[j] in Hits(legs);
      }
      if h :| h in HitsOf(legs[last]) && h.chunk == c {
        var j :| 0 <= j < |legs[last]| && HitsOf(legs[last])[j] == h;
      }
    }
  }

  lemma FoundHoldsNoNul(legs: seq<seq<Chunk>>, c: Chunk)
    requires NoNuls(legs) && Found(legs, c)
    ensures '\0' !in c.source
  {
  }

  lemma SourcesDiffer(legs: seq<seq<Chunk>>, c: Chunk, d: Chunk)
    requires NoNuls(legs) && Found(legs, c) && Found(legs, d) && Key(c) == Key(d)
    ensures c == d
  {
    FoundHoldsNoNul(legs, c);
    FoundHoldsNoNul(legs, d);
    KeyNamesChunk(c, d);
  }

  lemma FusedMembers(legs: seq<seq<Chunk>>, c: Chunk)
    ensures c in ChunksIn(Fused(legs)) <==> c in Firsts(Hits(legs))
  {
    var s, aggs, firsts := Fused(legs), Aggs(Hits(legs)), Firsts(Hits(legs));
    if c in ChunksIn(s) {
      var i :| 0 <= i < |s| && ChunksIn(s)[i] == c;
      FusedScores(legs, i);
    }
    if c in firsts {
      var i :| 0 <= i < |firsts| && firsts[i] == c;
      assert aggs[i] in multiset(s);
      var j :| 0 <= j < |s| && s[j] == aggs[i];
      assert ChunksIn(s)[j] == c;
    }
  }

  /** The fused list holds exactly the chunks the legs found. */
  lemma FusedIsFound(legs: seq<seq<Chunk>>, c: Chunk)
    requires NoNuls(legs)
    ensures c in ChunksIn(Fused(legs)) <==> Found(legs, c)
  {
    FusedMembers(legs, c);
    HitsAreFound(legs, c);
    FirstsAreDistinct(Hits(legs));
    if Found(legs, c) {
      var h :| h in Hits(legs) && h.chunk == c;
      var d :| d in Firsts(Hits(legs)) && Key(d) == Key(c);
      HitsAreFound(legs, d);
      SourcesDiffer(legs, c, d);
    }
  }

  /** None of them twice. */
  lemma FusedOnce(legs: seq<seq<Chunk>>)
    ensures Sorting.Distinct(ChunksIn(Fused(legs)))
  {
    var s, firsts := Fused(legs), Firsts(Hits(legs));
    FirstsAreDistinct(Hits(legs));
    OrdersApart(s, Aggs(Hits(legs)));
    forall i, j | 0 <= i < j < |s| ensures ChunksIn(s)[i] != ChunksIn(s)[j] {
      FusedScores(legs, i);
      FusedScores(legs, j);
      assert OtherOrder(s[i], s[j]);
      KeysApartAt(firsts, s[i].order, s[j].order);
    }
  }

  lemma KeysApartAt(s: seq<Chunk>, i: nat, j: nat)
    requires KeysApart(s) && i < |s| && j < |s| && i != j
    ensures s[i] != s[j]
  {
    assert if i < j then OtherKey(s[i], s[j]) else OtherKey(s[j], s[i]);
  }

  /** rrfFuse: whatever order the map is walked in, the first k of the unique fused list, which is every
      chunk the legs found, once. */
  method RrfFuse(legs: seq<seq<Chunk>>, k: int) returns (out: seq<Chunk>)
    ensures out == Capped(ChunksIn(Fused(legs)), k)
    ensures Sorting.Distinct(out)
    ensures NoNuls(legs) ==> forall c :: c in out ==> Found(legs, c)
    ensures NoNuls(legs) && (k <= 0 || |out| < k) ==> forall c :: Found(legs, c) ==> c in out
  {
    out := FuseAll(legs, k);
    FusedOnce(legs);
    FusedIsAllFound(legs);
  }

  method FuseAll(legs: seq<seq<Chunk>>, k: int) returns (out: seq<Chunk>)
    ensures out == Capped(ChunksIn(Fused(legs)), k)
  {
    var byKey: map<string, Agg>, seen := map[], 0;
    for i := 0 to |legs|
      invariant Holds(byKey, Hits(legs[..i])) && seen == |Firsts(Hits(legs[..i]))|
    {
      assert legs[..i + 1][..i] == legs[..i];
      byKey, seen := CountLeg(byKey, seen, legs[i], Hits(legs[..i]));
    }
    assert legs[..|legs|] == legs;
    var fused := Records(byKey, Hits(legs));
    OrdersApart(fused, Aggs(Hits(legs)));
    SortsStrictly(fused);
    fused := Sorting.StableSort(fused, Ahead);
    FusedIsUnique(legs, fused);
    if k > 0 && |fused| > k {
      fused := fused[..k];
    }
    out := ChunksIn(fused);
  }

  lemma FusedIsAllFound(legs: seq<seq<Chunk>>)
    ensures NoNuls(legs) ==> forall c :: c in ChunksIn(Fused(legs)) <==> Found(legs, c)
  {
    if NoNuls(legs) {
      forall c ensures c in ChunksIn(Fused(legs)) <==> Found(legs, c) {
        FusedIsFound(legs, c);
      }
    }
  }

  lemma OrdersApart(s: seq<Agg>, aggs: seq<Agg>)
    requires multiset(s) == multiset(aggs) && forall i :: 0 <= i < |aggs| ==> aggs[i].order == i
    ensures forall i, j :: 0 <= i < j < |s| ==> OtherOrder(s[i], s[j])
  {
    forall i, j | 0 <= i < j < |s| ensures OtherOrder(s[i], s[j]) {
      Sorting.SameMembersApart(s, aggs, i, j);
      assert s[i] in multiset(aggs) && s[j] in multiset(aggs);
    }
  }

  // ---------- Agreement between legs ----------

  ghost predicate InLeg(leg: seq<Chunk>, key: string) {
    exists i :: 0 <= i < |leg| && Key(leg[i]) == key
  }

  lemma {:induction false} ScoreInTurn(a: seq<Hit>, b: seq<Hit>, key: string)
    ensures ScoreOf(a + b, key) == ScoreOf(a, key) + ScoreOf(b, key)
  {
    if b == [] {
      assert a + b == a;
    } else {
      ScoreInTurn(a, b[..|b| - 1], key);
      assert (a + b)[..|a + b| - 1] == a + b[..|b| - 1];
    }
  }

  /** In a leg without duplicates a chunk scores the weight of its one place. */
  lemma {:induction false} LegScore(leg: seq<Chunk>, n: nat, i: nat)
    requires n <= |leg| && i < |leg| && KeysApart(leg)
    ensures ScoreOf(HitsOf(leg)[..n], Key(leg[i])) == if i < n then Weight(i) else 0.0
  {
    if n > 0 {
      LegScore(leg, n - 1, i);
      assert HitsOf(leg)[..n][..n - 1] == HitsOf(leg)[..n - 1];
      assert i < n - 1 ==> OtherKey(leg[i], leg[n - 1]);
      assert n - 1 < i ==> OtherKey(leg[n - 1], leg[i]);
    }
  }

  lemma MissingScore(leg: seq<Chunk>, key: string)
    requires !InLeg(leg, key)
    ensures ScoreOf(HitsOf(leg), key) == 0.0
  {
    forall h | h in HitsOf(leg) ensures Key(h.chunk) != key {
      var i :| 0 <= i < |leg| && HitsOf(leg)[i] == h;
    }
    UnseenScoresNothing(HitsOf(leg), key);
  }

  lemma WeightBounds(rank: nat)
    ensures 0.0 < Weight(rank) <= 1.0 / 60.0
    ensures rank < 60 ==> Weight(rank) >= 1.0 / 119.0
  {
    Reciprocal(60, RRF_K + rank);
    if rank < 60 {
      Reciprocal(RRF_K + rank, 119);
    }
  }

  lemma Reciprocal(a: int, b: int)
    requires 0 < a <= b
    ensures 0.0 < 1.0 / b as real <= 1.0 / a as real
  {
  }

  /** A leg of at most 60 chunks, none repeated, gives a chunk it holds from 1/119 to 1/60. */
  lemma LegScoreBounds(leg: seq<Chunk>, key: string)
    requires KeysApart(leg)
    ensures ScoreOf(HitsOf(leg), key) <= 1.0 / 60.0
    ensures !InLeg(leg, key) ==> ScoreOf(HitsOf(leg), key) == 0.0
    ensures InLeg(leg, key) && |leg| <= 60 ==> ScoreOf(HitsOf(leg), key) >= 1.0 / 119.0
  {
    if i :| 0 <= i < |leg| && Key(leg[i]) == key {
      LegScore(leg, |leg|, i);
      assert HitsOf(leg)[..|leg|] == HitsOf(leg);
      WeightBounds(i);
    } else {
      MissingScore(leg, key);
    }
  }

  lemma TwoLegHits(a: seq<Chunk>, b: seq<Chunk>)
    ensures Hits([a, b]) == HitsOf(a) + HitsOf(b)
  {
    assert [a, b][..1] == [a] && [a][..0] == [];
    assert Hits([a]) == HitsOf(a);
  }

  lemma TwoLegScore(a: seq<Chunk>, b: seq<Chunk>, key: string)
    ensures ScoreOf(Hits([a, b]), key) == ScoreOf(HitsOf(a), key) + ScoreOf(HitsOf(b), key)
  {
    TwoLegHits(a, b);
    ScoreInTurn(HitsOf(a), HitsOf(b), key);
  }

  ghost predicate InBoth(a: seq<Chunk>, b: seq<Chunk>, key: string) {
    InLeg(a, key) && InLeg(b, key)
  }

  /** What both legs found is ahead of what one found. */
  ghost predicate AgreedAhead(a: seq<Chunk>, b: seq<Chunk>) {
    var s := Fused([a, b]);
    forall i, j :: 0 <= i < |s| && 0 <= j < |s| && InBoth(a, b, Key(s[i].chunk)) && !InBoth(a, b, Key(s[j].chunk)) ==> i < j
  }

  lemma AgreedScore(a: seq<Chunk>, b: seq<Chunk>, key: string)
    requires KeysApart(a) && KeysApart(b) && |a| <= 60 && |b| <= 60
    ensures InBoth(a, b, key) ==> ScoreOf(Hits([a, b]), key) >= 2.0 / 119.0
    ensures !InBoth(a, b, key) ==> ScoreOf(Hits([a, b]), key) <= 1.0 / 60.0
  {
    TwoLegScore(a, b, key);
    LegScoreBounds(a, key);
    LegScoreBounds(b, key);
  }

  lemma FusedAscends(legs: seq<seq<Chunk>>)
    ensures Sorting.Ascending(Fused(legs), Ahead)
  {
    SortsStrictly(Aggs(Hits(legs)));
  }

  lemma HigherIsAhead(s: seq<Agg>, i: nat, j: nat)
    requires Sorting.Ascending(s, Ahead) && i < |s| && j < |s| && s[i].score > s[j].score
    ensures i < j
  {
  }

  /** With two legs of at most 60 chunks each, none repeated, what both found is ahead of what one
      found, wherever each ranked it. */
  lemma FoundByBothIsAhead(a: seq<Chunk>, b: seq<Chunk>)
    requires KeysApart(a) && KeysApart(b) && |a| <= 60 && |b| <= 60
    ensures AgreedAhead(a, b)
  {
    var s := Fused([a, b]);
    forall i, j | 0 <= i < |s| && 0 <= j < |s| && InBoth(a, b, Key(s[i].chunk)) && !InBoth(a, b, Key(s[j].chunk)) ensures i < j {
      AgreedScore(a, b, Key(s[i].chunk));
      AgreedScore(a, b, Key(s[j].chunk));
      FusedScores([a, b], i);
      FusedScores([a, b], j);
      FusedAscends([a, b]);
      HigherIsAhead(s, i, j);
    }
  }

  lemma ChunkInLeg(leg: seq<Chunk>, legs: seq<seq<Chunk>>, c: Chunk)
    requires NoNuls(legs) && leg in legs && Found(legs, c)
    ensures InLeg(leg, Key(c)) <==> c in leg
  {
    if i :| 0 <= i < |leg| && Key(leg[i]) == Key(c) {
      assert Found(legs, leg[i]);
      SourcesDiffer(legs, leg[i], c);
    }
  }

  lemma ChunksApart(leg: seq<Chunk>, legs: seq<seq<Chunk>>)
    requires NoNuls(legs) && leg in legs && Sorting.Distinct(leg)
    ensures KeysApart(leg)
  {
    forall i, j | 0 <= i < j < |leg| ensures OtherKey(leg[i], leg[j]) {
      assert Found(legs, leg[i]) && Found(legs, leg[j]);
      if Key(leg[i]) == Key(leg[j]) {
        SourcesDiffer(legs, leg[i], leg[j]);
      }
    }
  }

  /** The same of the chunks themselves: what is in both legs comes before what is in one only. */
  lemma ChunksInBothAreAhead(a: seq<Chunk>, b: seq<Chunk>, i: nat, j: nat)
    requires NoNuls([a, b]) && Sorting.Distinct(a) && Sorting.Distinct(b) && |a| <= 60 && |b| <= 60
    requires var out := ChunksIn(Fused([a, b]));
      i < |out| && j < |out| && out[i] in a && out[i] in b && !(out[j] in a && out[j] in b)
    ensures i < j
  {
    var legs, out := [a, b], ChunksIn(Fused([a, b]));
    ChunksApart(a, legs);
    ChunksApart(b, legs);
    FoundByBothIsAhead(a, b);
    forall k | k in {i, j} ensures Found(legs, out[k]) {
      FusedIsFound(legs, out[k]);
    }
    ChunkInLeg(a, legs, out[i]);
    ChunkInLeg(b, legs, out[i]);
    ChunkInLeg(a, legs, out[j]);
    ChunkInLeg(b, legs, out[j]);
  }

  lemma FusedScores(legs: seq<seq<Chunk>>, i: nat)
    requires i < |Fused(legs)|
    ensures var agg, firsts := Fused(legs)[i], Firsts(Hits(legs));
      && agg.score == ScoreOf(Hits(legs), Key(agg.chunk))
      && agg.order < |firsts| && firsts[agg.order] == agg.chunk
  {
    var aggs := Aggs(Hits(legs));
    assert Fused(legs)[i] in multiset(aggs);
    var k :| 0 <= k < |aggs| && aggs[k] == Fused(legs)[i];
  }

  lemma {:induction false} FirstIsFirst(hits: seq<Hit>)
    requires hits != []
    ensures Firsts(hits) != [] && Firsts(hits)[0] == hits[0].chunk
  {
    if |hits| > 1 {
      FirstIsFirst(hits[..|hits| - 1]);
    }
  }

  lemma SixtyOneTies(a: seq<Chunk>, b: seq<Chunk>)
    requires KeysApart(a) && KeysApart(b) && |a| == 61 && |b| == 61 && a[60] == b[60] && !InLeg(b, Key(a[0]))
    ensures ScoreOf(Hits([a, b]), Key(a[0])) == ScoreOf(Hits([a, b]), Key(a[60]))
  {
    TwoLegScore(a, b, Key(a[0]));
    TwoLegScore(a, b, Key(a[60]));
    MissingScore(b, Key(a[0]));
    LegScore(a, 61, 0);
    LegScore(a, 61, 60);
    LegScore(b, 61, 60);
    assert HitsOf(a)[..61] == HitsOf(a) && HitsOf(b)[..61] == HitsOf(b);
    assert Weight(60) + Weight(60) == Weight(0);
  }

  /** A chunk last of 61 in both legs only ties with the first of one leg, which was seen earlier and so
      comes out ahead. */
  lemma SixtyOneIsBehind(a: seq<Chunk>, b: seq<Chunk>, i: nat, j: nat)
    requires KeysApart(a) && KeysApart(b) && |a| == 61 && |b| == 61 && a[60] == b[60] && !InLeg(b, Key(a[0]))
    requires var s := Fused([a, b]); i < |s| && j < |s| && Key(s[i].chunk) == Key(a[60]) && Key(s[j].chunk) == Key(a[0])
    ensures j < i
  {
    var s := Fused([a, b]);
    SixtyOneTies(a, b);
    FusedScores([a, b], i);
    FusedScores([a, b], j);
    TwoLegHits(a, b);
    FirstSeenIsFirst(Hits([a, b]), s[j].order);
    assert OtherKey(a[0], a[60]);
    assert s[i].order != 0 by { FirstIsFirst(Hits([a, b])); }
    SortsStrictly(Aggs(Hits([a, b])));
    assert i < j ==> Ahead(s[i], s[j]);
  }

  lemma FirstSeenIsFirst(hits: seq<Hit>, order: nat)
    requires hits != [] && order < |Firsts(hits)| && Key(Firsts(hits)[order]) == Key(hits[0].chunk)
    ensures order == 0
  {
    FirstIsFirst(hits);
    FirstsAreDistinct(hits);
    assert order > 0 ==> OtherKey(Firsts(hits)[0], Firsts(hits)[order]);
  }

  /** What any leg found is in the fused list. */
  lemma FoundIsFused(legs: seq<seq<Chunk>>, h: Hit) returns (i: nat)
    requires h in Hits(legs)
    ensures i < |Fused(legs)| && Key(Fused(legs)[i].chunk) == Key(h.chunk)
  {
    var firsts, aggs := Firsts(Hits(legs)), Aggs(Hits(legs));
    FirstsAreDistinct(Hits(legs));
    var c :| c in firsts && Key(c) == Key(h.chunk);
    var k :| 0 <= k < |firsts| && firsts[k] == c;
    assert aggs[k] in multiset(Fused(legs));
    i :| 0 <= i < |Fused(legs)| && Fused(legs)[i] == aggs[k];
  }

  function Spelled(n: nat): Chunk {
    Chunk(seq(n, _ => 'a'), [])
  }

  lemma SpelledApart(m: nat, n: nat)
    requires m != n
    ensures OtherKey(Spelled(m), Spelled(n))
  {
    assert |Key(Spelled(m))| == m + 1 && |Key(Spelled(n))| == n + 1;
  }

  /** Sixty chunks of this leg alone, and then one that every such leg has. */
  function WideLeg(from: nat): (r: seq<Chunk>)
    ensures |r| == 61 && r[60] == Spelled(0) && forall i :: 0 <= i < 60 ==> r[i] == Spelled(from + i)
  {
    seq(60, i requires 0 <= i < 60 => Spelled(from + i)) + [Spelled(0)]
  }

  lemma WideLegApart(from: nat)
    requires from > 0
    ensures KeysApart(WideLeg(from))
  {
    var leg := WideLeg(from);
    forall i, j | 0 <= i < j < |leg| ensures OtherKey(leg[i], leg[j]) {
      SpelledApart(from + i, if j < 60 then from + j else 0);
    }
  }

  lemma NotInWideLeg(from: nat, n: nat)
    requires n > 0 && n < from
    ensures !InLeg(WideLeg(from), Key(Spelled(n)))
  {
    var leg := WideLeg(from);
    forall i | 0 <= i < |leg| ensures Key(leg[i]) != Key(Spelled(n)) {
      SpelledApart(if i < 60 then from + i else 0, n);
    }
  }

  lemma SixtyOneDisagree(a: seq<Chunk>, b: seq<Chunk>)
    requires KeysApart(a) && KeysApart(b) && |a| == 61 && |b| == 61 && a[60] == b[60] && !InLeg(b, Key(a[0]))
    ensures !AgreedAhead(a, b)
  {
    TwoLegHits(a, b);
    assert HitsOf(a)[60] in HitsOf(a) && HitsOf(a)[0] in HitsOf(a);
    var i := FoundIsFused([a, b], HitsOf(a)[60]);
    var j := FoundIsFused([a, b], HitsOf(a)[0]);
    SixtyOneIsBehind(a, b, i, j);
    var s := Fused([a, b]);
    assert InLeg(a, Key(a[60])) && InLeg(b, Key(b[60]));
    assert InBoth(a, b, Key(s[i].chunk)) && !InBoth(a, b, Key(s[j].chunk));
  }

  lemma WideLegsDisagree()
    ensures KeysApart(WideLeg(1)) && KeysApart(WideLeg(61)) && !AgreedAhead(WideLeg(1), WideLeg(61))
  {
    WideLegApart(1);
    WideLegApart(61);
    NotInWideLeg(61, 1);
    SixtyOneDisagree(WideLeg(1), WideLeg(61));
  }

  /** So 60 is exactly how long legs may be for agreement to win over every pair of them. */
  lemma AgreementWinsIffAtMostSixty(d: nat)
    ensures d <= 60 <==> forall a, b :: KeysApart(a) && KeysApart(b) && |a| <= d && |b| <= d ==> AgreedAhead(a, b)
  {
    if d <= 60 {
      forall a, b | KeysApart(a) && KeysApart(b) && |a| <= d && |b| <= d ensures AgreedAhead(a, b) {
        FoundByBothIsAhead(a, b);
      }
    } else {
      WideLegsDisagree();
    }
  }

  // ---------- Hybrid retrieval ----------

  /** hybrid: a leg that failed is left out, and only when both failed does retrieval fail. */
  method Hybrid(keyword: Option<seq<Chunk>>, semantic: Option<seq<Chunk>>, maxChunks: int) returns (r: Option<seq<Chunk>>)
    ensures r.None? <==> keyword.None? && semantic.None?
    ensures keyword.Some? && semantic.Some? ==> r == Some(Capped(ChunksIn(Fused([keyword.value, semantic.value])), maxChunks))
    ensures keyword.Some? && semantic.None? ==> r == Some(Capped(ChunksIn(Fused([keyword.value])), maxChunks))
    ensures keyword.None? && semantic.Some? ==> r == Some(Capped(ChunksIn(Fused([semantic.value])), maxChunks))
  {
    var legs: seq<seq<Chunk>>, anyOk := [], false;
    if keyword.Some? {
      legs, anyOk := legs + [keyword.value], true;
    }
    if semantic.Some? {
      legs, anyOk := legs + [semantic.value], true;
    }
    if !anyOk {
      return None;
    }
    if keyword.Some? && semantic.Some? {
      assert legs == [keyword.value, semantic.value];
    }
    var out := RrfFuse(legs, maxChunks);
    r := Some(out);
  }
}
