/** The conversation buffer (internal/memory): bounded, keyed by chat, purged by speaker, and
    selected from by recency and relevance. */
module Conversation {
  import Sorting
  import Text

  const RECENCY_FLOOR := 3

  datatype Turn = Turn(speakerId: string, speaker: string, bot: bool, text: string,
                       time: int, messageId: string, replyTo: string)

  type Convos = map<string, seq<Turn>>

  /** The text analysis a score rests on: lower-casing, and what a word is made of. */
  datatype Lexicon = Lexicon(lower: string -> string, word: char -> bool)

  function Conv(convos: Convos, chat: string): seq<Turn> {
    if chat in convos then convos[chat] else []
  }

  function LastN<T>(s: seq<T>, n: nat): seq<T> {
    if |s| > n then s[|s| - n..] else s
  }

  function Without(turns: seq<Turn>, speaker: string): (r: seq<Turn>)
    ensures forall t :: t in r <==> t in turns && t.speakerId != speaker
  {
    if turns == [] then []
    else if turns[0].speakerId != speaker then [turns[0]] + Without(turns[1..], speaker)
    else Without(turns[1..], speaker)
  }

  lemma WithoutNext(turns: seq<Turn>, i: nat, speaker: string, kept: seq<Turn>)
    requires i < |turns|
    ensures kept + Without(turns[i..], speaker) ==
            (if turns[i].speakerId != speaker then kept + [turns[i]] else kept) + Without(turns[i + 1..], speaker)
  {
    assert turns[i..][1..] == turns[i + 1..];
  }

  function Appended(convos: Convos, retain: int, chat: string, t: Turn): Convos {
    if retain <= 0 then convos else convos[chat := LastN(Conv(convos, chat) + [t], retain)]
  }

  function Purged(convos: Convos, retain: int, chat: string, speaker: string): Convos {
    if retain <= 0 || speaker == "" then convos else convos[chat := Without(Conv(convos, chat), speaker)]
  }

  function UserPurged(convos: Convos, retain: int, speaker: string): Convos {
    if retain <= 0 || speaker == "" then convos else map c | c in convos :: Without(convos[c], speaker)
  }

  // ---------- Scoring ----------

  function Terms(lex: Lexicon, query: string): set<string> {
    set w | w in Text.Fields(lex.lower(query), lex.word) && Text.ByteLen(w) > 2
  }

  function Score(lex: Lexicon, text: string, terms: set<string>): nat {
    if terms == {} then 0 else |terms * (set w | w in Text.Fields(lex.lower(text), lex.word))|
  }

  /** A turn scores one for every different word of the query that is longer than two bytes and that the
      turn says too, in any letter case. */
  lemma ScoreCounts(lex: Lexicon, text: string, query: string, shared: set<string>)
    requires forall w :: w in shared <==>
      w in Text.Fields(lex.lower(query), lex.word) && Text.ByteLen(w) > 2 && w in Text.Fields(lex.lower(text), lex.word)
    ensures Score(lex, text, Terms(lex, query)) == |shared|
  {
    var said := set w | w in Text.Fields(lex.lower(text), lex.word);
    assert shared == Terms(lex, query) * said;
    assert Terms(lex, query) == {} ==> shared == {};
  }

  function Scores(lex: Lexicon, turns: seq<Turn>, query: string): (r: seq<nat>)
    ensures |r| == |turns|
  {
    seq(|turns|, i requires 0 <= i < |turns| => Score(lex, turns[i].text, Terms(lex, query)))
  }

  // ---------- What a selection is ----------

  /** Index `i` of `len` turns is one the recency floor always takes, under the budget `n`. */
  predicate InFloor(i: nat, len: nat, n: nat) {
    i < len && len <= i + RECENCY_FLOOR && len <= i + n
  }

  function Floor(len: nat, n: nat): set<nat> {
    set i: nat | i < len && InFloor(i, len, n)
  }

  ghost predicate Better(scores: seq<nat>, i: nat, j: nat)
    requires i < |scores| && j < |scores|
  {
    scores[i] > scores[j] || (scores[i] == scores[j] && i < j)
  }

  /** `chosen` takes the floor and then, within the budget `n`, the best scored of the older turns. */
  ghost predicate BestSelection(scores: seq<nat>, n: nat, chosen: set<nat>) {
    var floor := Floor(|scores|, n);
    && floor <= chosen
    && |chosen| <= n
    && (forall i :: i in chosen ==> i < |scores|)
    && (forall i :: i in chosen - floor ==> scores[i] > 0)
    && (forall i, c :: 0 <= i < |scores| && i !in chosen && scores[i] > 0 && c in chosen - floor ==> Better(scores, c, i))
    && ((exists i :: 0 <= i < |scores| && i !in chosen && scores[i] > 0) ==> |chosen| == n)
  }

  lemma FewerThan(s: set<nat>, t: set<nat>)
    requires s < t
    ensures |s| < |t|
  {
    assert t == s + (t - s);
    assert t - s != {};
  }

  /** The description fixes the selection: two best selections are the same. */
  lemma BestSelectionUnique(scores: seq<nat>, n: nat, s: set<nat>, t: set<nat>)
    requires BestSelection(scores, n, s) && BestSelection(scores, n, t)
    ensures s == t
  {
    if s < t {
      FewerThan(s, t);
      assert false;
    } else if t < s {
      FewerThan(t, s);
      assert false;
    } else if s != t {
      var i :| i in s && i !in t;
      var j :| j in t && j !in s;
      ChosenIsBetter(scores, n, s, i, j);
      ChosenIsBetter(scores, n, t, j, i);
    }
  }

  lemma ChosenIsBetter(scores: seq<nat>, n: nat, chosen: set<nat>, c: nat, i: nat)
    requires BestSelection(scores, n, chosen) && c in chosen && c < |scores| && i < |scores|
    ensures i !in chosen && c !in Floor(|scores|, n) && scores[i] > 0 ==> Better(scores, c, i)
  {
  }

  /** The chosen turns in buffer order. */
  function Emit(turns: seq<Turn>, chosen: set<nat>): (r: seq<Turn>) {
    if turns == [] then []
    else
      var last := |turns| - 1;
      Emit(turns[..last], chosen) + (if last in chosen then [turns[last]] else [])
  }

  /** Emit lists exactly the chosen turns, each once, in the order they were said. */
  lemma {:induction false} EmitIsSubsequence(turns: seq<Turn>, chosen: set<nat>) returns (at: seq<nat>)
    requires forall i :: i in chosen ==> i < |turns|
    ensures forall k :: 0 <= k < |at| ==> at[k] < |turns|
    ensures Emit(turns, chosen) == seq(|at|, k requires 0 <= k < |at| => turns[at[k]])
    ensures forall k, l :: 0 <= k < l < |at| ==> at[k] < at[l]
    ensures (set i | i in at) == chosen && |at| == |chosen|
  {
    if turns == [] {
      at := [];
      assert chosen == {};
    } else {
      var last := |turns| - 1;
      at := EmitIsSubsequence(turns[..last], chosen - {last});
      EmitIgnores(turns[..last], chosen, last);
      if last in chosen {
        at := at + [last];
        assert chosen == (chosen - {last}) + {last};
      } else {
        assert chosen - {last} == chosen;
      }
    }
  }

  lemma {:induction false} EmitIgnores(turns: seq<Turn>, chosen: set<nat>, i: nat)
    requires |turns| <= i
    ensures Emit(turns, chosen) == Emit(turns, chosen - {i})
  {
    if turns != [] {
      EmitIgnores(turns[..|turns| - 1], chosen, i);
    }
  }

  /** The last min(3, n, length) turns close the selection, unchanged. */
  lemma {:induction false} EmitEndsWithFloor(turns: seq<Turn>, chosen: set<nat>, f: nat)
    requires f <= |turns|
    requires forall i :: |turns| - f <= i < |turns| ==> i in chosen
    ensures var out := Emit(turns, chosen); f <= |out| && out[|out| - f..] == turns[|turns| - f..]
  {
    if f > 0 {
      var last := |turns| - 1;
      EmitEndsWithFloor(turns[..last], chosen, f - 1);
      assert last in chosen && Emit(turns, chosen) == Emit(turns[..last], chosen) + [turns[last]];
      SameEndMore(Emit(turns[..last], chosen), turns[..last], turns[last], f - 1);
      assert turns[..last] + [turns[last]] == turns;
    }
  }

  lemma SameEndMore(s: seq<Turn>, t: seq<Turn>, x: Turn, f: nat)
    requires f <= |s| && f <= |t| && s[|s| - f..] == t[|t| - f..]
    ensures (s + [x])[|s| - f..] == (t + [x])[|t| - f..]
  {
    assert (s + [x])[|s| - f..] == s[|s| - f..] + [x];
    assert (t + [x])[|t| - f..] == t[|t| - f..] + [x];
  }

  datatype Scored = Scored(idx: nat, score: nat)

  ghost predicate Ranking(scores: seq<nat>, floor: set<nat>, ranked: seq<Scored>) {
    && (forall r :: r in ranked ==> r.idx < |scores| && r.idx !in floor && r.score == scores[r.idx] && r.score > 0)
    && (forall k :: 0 <= k < |scores| && k !in floor && scores[k] > 0 ==> Scored(k, scores[k]) in ranked)
    && (forall a, b :: 0 <= a < b < |ranked| ==>
          ranked[a].score > ranked[b].score || (ranked[a].score == ranked[b].score && ranked[a].idx < ranked[b].idx))
  }

  /** The scoring turns outside the floor among the first `n`, oldest first. */
  function Older(scores: seq<nat>, floor: set<nat>, n: nat): seq<Scored>
    requires n <= |scores|
  {
    if n == 0 then []
    else Older(scores, floor, n - 1) + (if n - 1 !in floor && scores[n - 1] > 0 then [Scored(n - 1, scores[n - 1])] else [])
  }

  lemma {:induction false} OlderInOrder(scores: seq<nat>, floor: set<nat>, n: nat)
    requires n <= |scores|
    ensures var r := Older(scores, floor, n);
      && (forall e :: e in r <==> e.idx < n && e.idx !in floor && e.score == scores[e.idx] && e.score > 0)
      && (forall a, b :: 0 <= a < b < |r| ==> r[a].idx < r[b].idx)
  {
    if n > 0 {
      OlderInOrder(scores, floor, n - 1);
    }
  }

  predicate Higher(a: Scored, b: Scored) {
    a.score > b.score
  }

  predicate Earlier(a: Scored, b: Scored) {
    a.idx < b.idx
  }

  /** sort.SliceStable by score ranks them: highest score first, ties oldest first. */
  lemma StableSortRanks(scores: seq<nat>, floor: set<nat>)
    ensures Ranking(scores, floor, Sorting.StableSort(Older(scores, floor, |scores|), Higher))
  {
    var older := Older(scores, floor, |scores|);
    OlderInOrder(scores, floor, |scores|);
    Sorting.StableSortOrdered(older, Higher, Earlier);
    SameElements(older, Sorting.StableSort(older, Higher));
  }

  lemma SameElements<T>(s: seq<T>, t: seq<T>)
    requires multiset(s) == multiset(t)
    ensures forall x :: x in s <==> x in t
  {
    forall x ensures x in s <==> x in t {
      assert x in s <==> x in multiset(s);
      assert x in t <==> x in multiset(t);
    }
  }

  lemma FilledIsBest(scores: seq<nat>, n: nat, floor: set<nat>, ranked: seq<Scored>, k: nat, chosen: set<nat>)
    requires floor == Floor(|scores|, n) && Ranking(scores, floor, ranked)
    requires k <= |ranked| && |chosen| <= n && (k == |ranked| || |chosen| == n)
    requires forall c :: c in chosen <==> c in floor || exists a :: 0 <= a < k && ranked[a].idx == c
    ensures BestSelection(scores, n, chosen)
  {
    forall c | c in chosen && c !in floor
      ensures c < |scores| && scores[c] > 0
    {
      var a :| 0 <= a < k && ranked[a].idx == c;
      assert ranked[a] in ranked;
    }
    forall i | 0 <= i < |scores| && i !in chosen && scores[i] > 0
      ensures |chosen| == n
      ensures forall c :: c in chosen - floor ==> Better(scores, c, i)
    {
      assert Scored(i, scores[i]) in ranked;
      var b :| 0 <= b < |ranked| && ranked[b] == Scored(i, scores[i]);
      forall c | c in chosen - floor ensures Better(scores, c, i) {
        var a :| 0 <= a < k && ranked[a].idx == c;
        assert ranked[a] in ranked;
      }
    }
  }

  class Buffer {
    var retain: int
    var convos: Convos

    constructor (retain: int)
      ensures this.retain == retain && convos == map[]
    {
      this.retain, convos := retain, map[];
    }

    predicate Enabled()
      reads this`retain
    {
      retain > 0
    }

    method Append(chat: string, t: Turn)
      modifies this`convos
      ensures convos == Appended(old(convos), retain, chat, t)
    {
      if !Enabled() {
        return;
      }
      var turns := Conv(convos, chat) + [t];
      if |turns| > retain {
        turns := turns[|turns| - retain..];
      }
      convos := convos[chat := turns];
    }

    method Recent(chat: string, k: int) returns (r: seq<Turn>)
      ensures r == if retain <= 0 || k <= 0 then [] else LastN(Conv(convos, chat), k)
    {
      if !Enabled() || k <= 0 {
        return [];
      }
      var turns, n := Conv(convos, chat), k;
      if n > |turns| {
        n := |turns|;
      }
      return turns[|turns| - n..];
    }

    method PurgeLocked(chat: string, speaker: string)
      modifies this`convos
      ensures convos == old(convos)[chat := Without(Conv(old(convos), chat), speaker)]
    {
      var turns := Conv(convos, chat);
      var kept: seq<Turn> := [];
      assert turns[0..] == turns;
      for i := 0 to |turns|
        invariant convos == old(convos) && kept + Without(turns[i..], speaker) == Without(turns, speaker)
      {
        WithoutNext(turns, i, speaker, kept);
        if turns[i].speakerId != speaker {
          kept := kept + [turns[i]];
        }
      }
      assert turns[|turns|..] == [] && kept + [] == kept;
      convos := convos[chat := kept];
    }

    method Purge(chat: string, speaker: string)
      modifies this`convos
      ensures convos == Purged(old(convos), retain, chat, speaker)
    {
      if Enabled() && speaker != "" {
        PurgeLocked(chat, speaker);
      }
    }

    method PurgeUser(speaker: string)
      modifies this`convos
      ensures convos == UserPurged(old(convos), retain, speaker)
    {
      if !Enabled() || speaker == "" {
        return;
      }
      var chats := convos.Keys;
      while chats != {}
        invariant chats <= old(convos).Keys == convos.Keys
        invariant forall c :: c in convos ==> convos[c] == if c in chats then old(convos)[c] else Without(old(convos)[c], speaker)
        decreases |chats|
      {
        var chat :| chat in chats;
        PurgeLocked(chat, speaker);
        chats := chats - {chat};
      }
    }

    /** The indices Select takes, floor first and then by score. */
    method Choose(lex: Lexicon, turns: seq<Turn>, query: string, injectN: nat) returns (chosen: set<nat>)
      requires injectN > 0
      ensures BestSelection(Scores(lex, turns, query), injectN, chosen)
    {
      ghost var scores := Scores(lex, turns, query);
      var floor := TakeFloor(|turns|, injectN);
      if |floor| < injectN {
        var ranked := RankOlder(lex, turns, query, floor);
        chosen := Fill(scores, injectN, floor, ranked);
      } else {
        chosen := floor;
        assert chosen - Floor(|scores|, injectN) == {};
      }
    }

    method TakeFloor(len: nat, injectN: nat) returns (chosen: set<nat>)
      ensures chosen == Floor(len, injectN) && |chosen| <= injectN
      ensures forall i: nat :: i in chosen <==> i < len && i >= len - RECENCY_FLOOR && i >= len - injectN
    {
      var floor := RECENCY_FLOOR;
      if floor > injectN {
        floor := injectN;
      }
      chosen := {};
      for i := len - floor to len
        invariant forall k: nat :: k in chosen <==> k < i && InFloor(k, len, injectN)
        invariant |chosen| <= i - (len - floor)
      {
        if i >= 0 {
          assert InFloor(i, len, injectN);
          chosen := chosen + {i};
        }
      }
    }

    /** The turns outside the floor that score, highest score first and then oldest first. */
    method RankOlder(lex: Lexicon, turns: seq<Turn>, query: string, floor: set<nat>) returns (ranked: seq<Scored>)
      ensures Ranking(Scores(lex, turns, query), floor, ranked)
    {
      var terms := Terms(lex, query);
      ghost var scores := Scores(lex, turns, query);
      var older: seq<Scored> := [];
      for i := 0 to |turns|
        invariant older == Older(scores, floor, i)
      {
        if i !in floor {
          var s := Score(lex, turns[i].text, terms);
          if s > 0 {
            older := older + [Scored(i, s)];
          }
        }
      }
      ranked := Sorting.StableSort(older, Higher);
      StableSortRanks(scores, floor);
    }

    method Fill(ghost scores: seq<nat>, injectN: nat, floor: set<nat>, ranked: seq<Scored>) returns (chosen: set<nat>)
      requires floor == Floor(|scores|, injectN) && |floor| < injectN
      requires Ranking(scores, floor, ranked)
      ensures BestSelection(scores, injectN, chosen)
    {
      chosen := floor;
      var k := 0;
      while k < |ranked| && |chosen| < injectN
        invariant k <= |ranked|
        invariant |chosen| <= injectN
        invariant forall c :: c in chosen <==> c in floor || exists a :: 0 <= a < k && ranked[a].idx == c
      {
        chosen := chosen + {ranked[k].idx};
        k := k + 1;
      }
      FilledIsBest(scores, injectN, floor, ranked, k, chosen);
    }

    /** Select at time `now`: nothing when the buffer is off, the chat is empty, the budget is zero
        or the message stands alone; else the best selection, in the order it was said. */
    method Select(lex: Lexicon, chat: string, query: string, sender: string, isReply: bool, injectN: int,
                  window: int, now: int) returns (out: seq<Turn>)
      ensures var turns := Conv(convos, chat);
        var followsUp := isReply || exists t :: t in turns && !t.bot && t.speakerId == sender && t.time > now - window;
        if retain <= 0 || injectN <= 0 || turns == [] || !followsUp then out == []
        else exists chosen :: BestSelection(Scores(lex, turns, query), injectN, chosen) && out == Emit(turns, chosen)
    {
      if !Enabled() || injectN <= 0 {
        return [];
      }
      var turns := Conv(convos, chat);
      if |turns| == 0 {
        return [];
      }
      if !isReply {
        var deadline := now - window;
        var mid := false;
        for i := 0 to |turns|
          invariant !mid
          invariant forall k :: 0 <= k < i ==> turns[k].bot || turns[k].speakerId != sender || turns[k].time <= deadline
        {
          if !turns[i].bot && turns[i].speakerId == sender && turns[i].time > deadline {
            mid := true;
            break;
          }
        }
        if !mid {
          return [];
        }
      }
      var chosen := Choose(lex, turns, query, injectN);
      out := [];
      for i := 0 to |turns|
        invariant out == Emit(turns[..i], chosen)
      {
        assert turns[..i + 1][..i] == turns[..i];
        if i in chosen {
          out := out + [turns[i]];
        }
      }
      assert turns[..|turns|] == turns;
    }
  }

  // ---------- The buffer over a run ----------

  datatype Op = Said(chat: string, turn: Turn) | ChatPurge(chat: string, speaker: string) | UserPurge(speaker: string)

  function Apply(convos: Convos, retain: int, op: Op): Convos {
    match op
    case Said(chat, t) => Appended(convos, retain, chat, t)
    case ChatPurge(chat, u) => Purged(convos, retain, chat, u)
    case UserPurge(u) => UserPurged(convos, retain, u)
  }

  function Run(ops: seq<Op>, retain: int): Convos {
    if ops == [] then map[] else Apply(Run(ops[..|ops| - 1], retain), retain, ops[|ops| - 1])
  }

  predicate Purges(op: Op, chat: string, speaker: string) {
    speaker != "" && (op == ChatPurge(chat, speaker) || op == UserPurge(speaker))
  }

  /** A turn with the operation that said it. */
  datatype Entry = Entry(at: nat, turn: Turn)

  function EntriesWithout(entries: seq<Entry>, speaker: string): (r: seq<Entry>)
    ensures |r| <= |entries|
    ensures forall e :: e in r <==> e in entries && e.turn.speakerId != speaker
  {
    if entries == [] then []
    else if entries[0].turn.speakerId != speaker then [entries[0]] + EntriesWithout(entries[1..], speaker)
    else EntriesWithout(entries[1..], speaker)
  }

  /** What operation `at` leaves of what was in `chat`: the last `retain` on append, filtered on purge. */
  function KeptBy(op: Op, at: nat, prev: seq<Entry>, retain: nat, chat: string): (r: seq<Entry>)
    ensures |prev| <= retain ==> |r| <= retain
  {
    match op
    case Said(c, t) => if c == chat then LastN(prev + [Entry(at, t)], retain) else prev
    case ChatPurge(c, u) => if c == chat && u != "" then EntriesWithout(prev, u) else prev
    case UserPurge(u) => if u != "" then EntriesWithout(prev, u) else prev
  }

  /** What a run leaves in `chat`. */
  function Kept(ops: seq<Op>, retain: nat, chat: string): (r: seq<Entry>)
    ensures |r| <= retain
  {
    if ops == [] then []
    else
      var last := |ops| - 1;
      KeptBy(ops[last], last, Kept(ops[..last], retain, chat), retain, chat)
  }

  function Turns(entries: seq<Entry>): (r: seq<Turn>)
    ensures |r| == |entries| && forall k :: 0 <= k < |r| ==> r[k] == entries[k].turn
  {
    seq(|entries|, k requires 0 <= k < |entries| => entries[k].turn)
  }

  lemma TurnsFirst(e: Entry, rest: seq<Entry>)
    ensures Turns([e] + rest) == [e.turn] + Turns(rest)
  {
  }

  lemma TurnsLast(prev: seq<Entry>, e: Entry, retain: nat)
    ensures Turns(LastN(prev + [e], retain)) == LastN(Turns(prev) + [e.turn], retain)
  {
    assert Turns(prev + [e]) == Turns(prev) + [e.turn];
  }

  lemma {:induction false} TurnsWithout(entries: seq<Entry>, speaker: string)
    ensures Turns(EntriesWithout(entries, speaker)) == Without(Turns(entries), speaker)
  {
    if entries != [] {
      TurnsWithout(entries[1..], speaker);
      assert Turns(entries)[1..] == Turns(entries[1..]);
      if entries[0].turn.speakerId != speaker {
        TurnsFirst(entries[0], EntriesWithout(entries[1..], speaker));
      }
    }
  }

  lemma OpKeeps(convos: Convos, op: Op, at: nat, prev: seq<Entry>, retain: nat, chat: string)
    requires retain > 0 && Conv(convos, chat) == Turns(prev)
    ensures Conv(Apply(convos, retain, op), chat) == Turns(KeptBy(op, at, prev, retain, chat))
  {
    match op {
      case Said(c, t) => TurnsLast(prev, Entry(at, t), retain);
      case ChatPurge(c, u) => TurnsWithout(prev, u);
      case UserPurge(u) => TurnsWithout(prev, u);
    }
  }

  /** After any run of appends and purges the buffer holds exactly what Kept says, in every chat. */
  lemma {:induction false} RunKeeps(ops: seq<Op>, retain: nat, chat: string)
    requires retain > 0
    ensures Conv(Run(ops, retain), chat) == Turns(Kept(ops, retain, chat))
  {
    if ops != [] {
      var last := |ops| - 1;
      RunKeeps(ops[..last], retain, chat);
      OpKeeps(Run(ops[..last], retain), ops[last], last, Kept(ops[..last], retain, chat), retain, chat);
    }
  }

  ghost predicate InOrder(entries: seq<Entry>) {
    forall k, l :: 0 <= k < l < |entries| ==> entries[k].at < entries[l].at
  }

  lemma {:induction false} WithoutInOrder(entries: seq<Entry>, speaker: string)
    requires InOrder(entries)
    ensures InOrder(EntriesWithout(entries, speaker))
  {
    if entries != [] {
      var tail := entries[1..];
      assert InOrder(tail);
      WithoutInOrder(tail, speaker);
      var rest := EntriesWithout(tail, speaker);
      forall l | 0 <= l < |rest| ensures entries[0].at < rest[l].at {
        assert rest[l] in tail;
      }
    }
  }

  /** Entry `e` was said in `chat` and not purged since. */
  ghost predicate Standing(ops: seq<Op>, chat: string, e: Entry) {
    && e.at < |ops| && ops[e.at] == Said(chat, e.turn)
    && forall j :: e.at < j < |ops| ==> !Purges(ops[j], chat, e.turn.speakerId)
  }

  /** What is left was said in the chat, is in the order it was said, and was not purged since. */
  lemma {:induction false} KeptIsStanding(ops: seq<Op>, retain: nat, chat: string)
    ensures InOrder(Kept(ops, retain, chat))
    ensures forall e :: e in Kept(ops, retain, chat) ==> Standing(ops, chat, e)
  {
    if ops != [] {
      var last := |ops| - 1;
      var prev := Kept(ops[..last], retain, chat);
      KeptIsStanding(ops[..last], retain, chat);
      forall e | e in prev && !Purges(ops[last], chat, e.turn.speakerId)
        ensures Standing(ops, chat, e)
      {
        assert Standing(ops[..last], chat, e);
        forall j | e.at < j < last ensures !Purges(ops[j], chat, e.turn.speakerId) {
          assert ops[..last][j] == ops[j];
        }
      }
      KeptStep(ops[last], last, prev, retain, chat);
    }
  }

  lemma KeptStep(op: Op, last: nat, prev: seq<Entry>, retain: nat, chat: string)
    requires InOrder(prev) && forall e :: e in prev ==> e.at < last
    ensures InOrder(KeptBy(op, last, prev, retain, chat))
    ensures forall e :: e in KeptBy(op, last, prev, retain, chat) ==>
      (e in prev && !Purges(op, chat, e.turn.speakerId)) || (op == Said(chat, e.turn) && e.at == last)
  {
    match op {
      case Said(c, t) => AppendInOrder(prev, Entry(last, t), retain);
      case ChatPurge(c, u) => WithoutInOrder(prev, u);
      case UserPurge(u) => WithoutInOrder(prev, u);
    }
  }

  lemma AppendInOrder(entries: seq<Entry>, e: Entry, retain: nat)
    requires InOrder(entries) && forall x :: x in entries ==> x.at < e.at
    ensures InOrder(LastN(entries + [e], retain))
    ensures forall x :: x in LastN(entries + [e], retain) ==> x in entries || x == e
  {
    var all := entries + [e];
    var r := LastN(all, retain);
    var drop := |all| - |r|;
    forall k, l | 0 <= k < l < |r| ensures r[k].at < r[l].at {
      assert r[k] == entries[k + drop];
      if l + drop == |entries| {
        assert r[l] == e && entries[k + drop] in entries;
      } else {
        assert r[l] == entries[l + drop];
      }
    }
    assert forall k :: 0 <= k < |r| ==> r[k] == all[k + drop];
  }

  lemma {:induction false} WithoutKeepsPlace(entries: seq<Entry>, speaker: string, k: nat) returns (l: nat)
    requires k < |entries| && entries[k].turn.speakerId != speaker
    ensures var r := EntriesWithout(entries, speaker);
      l < |r| && r[l] == entries[k] && |r| - l <= |entries| - k
  {
    if k == 0 {
      l := 0;
    } else {
      l := WithoutKeepsPlace(entries[1..], speaker, k - 1);
      if entries[0].turn.speakerId != speaker {
        l := l + 1;
      }
    }
  }

  /** How many turns were said in `chat` after operation `i`. */
  ghost function SaidSince(ops: seq<Op>, i: nat, chat: string): nat {
    if |ops| <= i + 1 then 0
    else
      var last := |ops| - 1;
      SaidSince(ops[..last], i, chat) + (if ops[last].Said? && ops[last].chat == chat then 1 else 0)
  }

  /** Nothing else is lost: a turn not purged since, with fewer than `retain` turns said after it,
      is still there, no further back than those. */
  lemma {:induction false} RecentTurnIsKept(ops: seq<Op>, retain: nat, chat: string, i: nat) returns (k: nat)
    requires i < |ops| && ops[i].Said? && ops[i].chat == chat
    requires forall j :: i < j < |ops| ==> !Purges(ops[j], chat, ops[i].turn.speakerId)
    requires SaidSince(ops, i, chat) < retain
    ensures var r := Kept(ops, retain, chat);
      k < |r| && r[k] == Entry(i, ops[i].turn) && |r| - 1 - k <= SaidSince(ops, i, chat)
  {
    var last := |ops| - 1;
    var r := Kept(ops, retain, chat);
    if i == last {
      k := |r| - 1;
    } else {
      k := RecentTurnIsKept(ops[..last], retain, chat, i);
      var prev := Kept(ops[..last], retain, chat);
      match ops[last]
      case Said(c, t) =>
        if c == chat {
          k := k - (|prev| + 1 - |r|);
        }
      case ChatPurge(c, u) =>
        if c == chat && u != "" {
          k := WithoutKeepsPlace(prev, u, k);
        }
      case UserPurge(u) =>
        if u != "" {
          k := WithoutKeepsPlace(prev, u, k);
        }
    }
  }
}
