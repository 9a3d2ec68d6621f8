/** The durable record of memory namespaces (internal/namespaces), the start that writes it
    (cmd/yaad-grove), and the purge and the erase that read it (internal/runtime). */
module Namespaces {
  import opened Options
  import opened LongMemory
  import Retention
  import Sorting
  import Text

  /** Each recorded namespace, with when it was first found missing from the configuration;
      None is a configured one. */
  type Dropped = map<string, Option<int>>

  /** How a save ends: a failed one leaves the old file, or the new one when it fails after the rename. */
  datatype SaveOutcome = Saved | FailedBefore | FailedAfter

  function OnDisk(file: Dropped, dropped: Dropped, outcome: SaveOutcome): Dropped {
    if outcome == FailedBefore then file else dropped
  }

  function WithConfigured(dropped: Dropped, names: set<string>): Dropped {
    map ns | ns in dropped.Keys + names :: if ns in names then None else dropped[ns]
  }

  /** The zero time of Go's map: a namespace not recorded reads as a configured one. */
  function DroppedAt(dropped: Dropped, ns: string): Option<int> {
    if ns in dropped then dropped[ns] else None
  }

  /** The file a record is kept in, which outlives the process. */
  class File {
    var content: Dropped

    constructor ()
      ensures content == map[]
    {
      content := map[];
    }
  }

  class Record {
    const file: File
    var dropped: Dropped

    constructor Open(file: File)
      ensures this.file == file && dropped == file.content
    {
      this.file := file;
      dropped := file.content;
    }

    method Save(outcome: SaveOutcome) returns (ok: bool)
      modifies file
      ensures ok == outcome.Saved? && file.content == OnDisk(old(file.content), dropped, outcome)
      ensures ok ==> file.content == dropped
      ensures outcome == FailedBefore ==> file.content == old(file.content)
    {
      if outcome != FailedBefore {
        file.content := dropped;
      }
      return outcome == Saved;
    }

    method Configured(names: seq<string>, outcome: SaveOutcome) returns (ok: bool)
      modifies this, file
      ensures dropped == WithConfigured(old(dropped), set ns | ns in names)
      ensures forall ns :: ns in dropped <==> ns in old(dropped) || ns in names
      ensures forall ns :: ns in dropped ==> dropped[ns] == if ns in names then None else old(dropped)[ns]
      ensures ok == outcome.Saved? && file.content == OnDisk(old(file.content), dropped, outcome)
    {
      for i := 0 to |names|
        invariant dropped == WithConfigured(old(dropped), set ns | ns in names[..i])
        invariant file.content == old(file.content)
      {
        assert names[..i + 1] == names[..i] + [names[i]];
        dropped := dropped[names[i] := None];
      }
      assert names[..|names|] == names;
      ok := Save(outcome);
    }

    /** A namespace already dropped keeps its time and is not saved again; a failed save is undone
        in memory. */
    method Drop(ns: string, now: int, outcome: SaveOutcome) returns (ok: bool, at: Option<int>)
      modifies this, file
      ensures var t := DroppedAt(old(dropped), ns);
        if t.Some? then ok && at == t && dropped == old(dropped) && file.content == old(file.content)
        else
          && ok == outcome.Saved?
          && at == (if ok then Some(now) else None)
          && dropped == old(dropped)[ns := at]
          && file.content == OnDisk(old(file.content), old(dropped)[ns := Some(now)], outcome)
    {
      var t := DroppedAt(dropped, ns);
      if t.Some? {
        return true, t;
      }
      dropped := dropped[ns := Some(now)];
      ok := Save(outcome);
      if !ok {
        dropped := dropped[ns := None];
        return false, None;
      }
      return true, Some(now);
    }

    method Names() returns (names: seq<string>)
      ensures SortedNames(names, dropped.Keys)
    {
      names := Elements(dropped.Keys);
      SortingNames(names);
      names := Sorting.StableSort(names, Text.Less);
    }

    method Forget(ns: string, outcome: SaveOutcome) returns (ok: bool)
      modifies this, file
      ensures if ns !in old(dropped) then ok && dropped == old(dropped) && file.content == old(file.content)
        else
          && ok == outcome.Saved?
          && dropped == (if ok then old(dropped) - {ns} else old(dropped))
          && file.content == OnDisk(old(file.content), old(dropped) - {ns}, outcome)
    {
      if ns !in dropped {
        return true;
      }
      var t := dropped[ns];
      dropped := dropped - {ns};
      ok := Save(outcome);
      if !ok {
        dropped := dropped[ns := t];
      }
    }
  }

  /** The keys a map iteration visits, in whatever order. */
  method Elements(keys: set<string>) returns (names: seq<string>)
    ensures (set ns | ns in names) == keys
    ensures forall i, j :: 0 <= i < j < |names| ==> names[i] != names[j]
  {
    names := [];
    var rest := keys;
    while rest != {}
      invariant rest <= keys && forall ns :: ns in names <==> ns in keys && ns !in rest
      invariant forall i, j :: 0 <= i < j < |names| ==> names[i] != names[j]
      decreases |rest|
    {
      var ns :| ns in rest;
      rest := rest - {ns};
      names := names + [ns];
    }
  }

  /** Exactly `keys`, ascending. */
  ghost predicate SortedNames(names: seq<string>, keys: set<string>) {
    (set ns | ns in names) == keys && Sorting.Ascending(names, Text.Less)
  }

  predicate Differ(s: string, t: string) {
    s != t
  }

  lemma StringsAreOrdered()
    ensures Sorting.WeakOrder(Text.Less)
  {
    forall x, y | Text.Less(x, y) ensures Sorting.AtMost(Text.Less, x, y) {
      Text.LessAsymmetric(x, y);
    }
    forall x, y, z | Sorting.AtMost(Text.Less, x, y) && Sorting.AtMost(Text.Less, y, z)
      ensures Sorting.AtMost(Text.Less, x, z)
    {
      Text.LessTotal(x, y);
      Text.LessTotal(y, z);
      if Text.Less(x, y) && Text.Less(y, z) {
        Text.LessTransitive(x, y, z);
      }
      if Text.Less(z, x) {
        Text.LessAsymmetric(z, x);
      }
    }
  }

  lemma SortingNames(names: seq<string>)
    requires forall i, j :: 0 <= i < j < |names| ==> names[i] != names[j]
    ensures SortedNames(Sorting.StableSort(names, Text.Less), set ns | ns in names)
  {
    var sorted := Sorting.StableSort(names, Text.Less);
    StringsAreOrdered();
    Sorting.StableSortOrdered(names, Text.Less, Differ);
    forall i, j | 0 <= i < j < |sorted| ensures Text.Less(sorted[i], sorted[j]) {
      Text.LessTotal(sorted[i], sorted[j]);
    }
    forall x ensures x in sorted <==> x in names {
      assert x in sorted <==> x in multiset(sorted);
      assert x in names <==> x in multiset(names);
    }
  }

  // ---------- A namespace's store ----------

  class Backend {
    var records: set<Kept>

    constructor ()
      ensures records == {}
    {
      records := {};
    }

    /** A delete that fails may have removed some of what it was to remove. */
    method DeleteBefore(cut: int, ok: bool, lost: set<Kept>)
      modifies this
      ensures records == old(records) - (if ok then Older(old(records), cut) else Older(old(records), cut) * lost)
    {
      var due := Older(records, cut);
      records := records - (if ok then due else due * lost);
    }

    method DeleteSubject(subject: string, ok: bool, lost: set<Kept>)
      modifies this
      ensures records == Spared(old(records), subject, ok, lost)
    {
      var due := set r | r in records && r.subject == subject;
      records := records - (if ok then due else due * lost);
    }
  }

  /** One namespace's purge, as a start makes it. */
  datatype NamespacePurge = NamespacePurge(namespace: string, backend: Backend, record: Record,
                                           retention: int, window: int, dropped: Option<int>)

  /** Whether a purge at `now` passes the moment its namespace was dropped. */
  predicate Passed(dropped: Option<int>, cut: int) {
    dropped.Some? && dropped.value <= cut
  }

  method Purge(p: NamespacePurge, now: int, deleteOk: bool, lost: set<Kept>, outcome: SaveOutcome) returns (ok: bool)
    modifies p.backend, p.record, p.record.file
    ensures var cut := Retention.PurgeCut(now, p.window, p.retention);
      && p.backend.records == old(p.backend.records) -
           (if deleteOk then Older(old(p.backend.records), cut) else Older(old(p.backend.records), cut) * lost)
      && (if deleteOk && Passed(p.dropped, cut) && p.namespace in old(p.record.dropped) then
            && ok == outcome.Saved?
            && p.record.dropped == (if ok then old(p.record.dropped) - {p.namespace} else old(p.record.dropped))
            && p.record.file.content == OnDisk(old(p.record.file.content), old(p.record.dropped) - {p.namespace}, outcome)
          else
            ok == deleteOk && p.record.dropped == old(p.record.dropped) && p.record.file.content == old(p.record.file.content))
    ensures var cut := Retention.PurgeCut(now, p.window, p.retention);
      && (deleteOk && p.dropped.Some? && p.dropped.value <= cut && ok ==> p.namespace !in p.record.dropped)
      && (!deleteOk || p.dropped == None || cut < p.dropped.value ==>
            p.record.dropped == old(p.record.dropped) && p.record.file.content == old(p.record.file.content))
  {
    var cut := Retention.PurgeCut(now, p.window, p.retention);
    p.backend.DeleteBefore(cut, deleteOk, lost);
    if !deleteOk {
      return false;
    }
    if p.dropped.None? || cut < p.dropped.value {
      return true;
    }
    ok := p.record.Forget(p.namespace, outcome);
  }

  /** How a purge went in one round for one namespace. */
  datatype Attempt = Attempt(deleteOk: bool, lost: set<Kept>, outcome: SaveOutcome)

  /** Where each purge cuts in each of the schedule's rounds. */
  function Cuts(ps: seq<NamespacePurge>, window: int, start: int): (nat, nat) -> int {
    (i: nat, k: nat) => if k < |ps| then Retention.PurgeCut(Retention.PurgeAt(start, window, i), ps[k].window, ps[k].retention) else 0
  }

  /** What a delete leaves: one that fails may have removed some of what it was to remove. */
  function LeftBy(records: set<Kept>, cut: int, a: Attempt): set<Kept> {
    records - (if a.deleteOk then Older(records, cut) else Older(records, cut) * a.lost)
  }

  /** What the first `n` rounds leave of the k-th namespace's records. */
  function RecordsAfter(records: set<Kept>, k: nat, n: nat, cuts: (nat, nat) -> int, attempt: (nat, nat) -> Attempt): set<Kept> {
    if n == 0 then records
    else LeftBy(RecordsAfter(records, k, n - 1, cuts, attempt), cuts(n - 1, k), attempt(n - 1, k))
  }

  /** The i-th round deletes in the k-th namespace past its drop, and saves that. */
  predicate Forgets(dropped: Option<int>, k: nat, i: nat, cuts: (nat, nat) -> int, attempt: (nat, nat) -> Attempt) {
    attempt(i, k).deleteOk && attempt(i, k).outcome == Saved && Passed(dropped, cuts(i, k))
  }

  /** How many rounds are done for the k-th purge, when the first `next` of `round`'s are. */
  function Done(round: nat, k: nat, next: nat): nat {
    if k < next then round + 1 else round
  }

  /** The record after `round` rounds and the first `next` purges of another: what was forgotten is gone and the rest is as it was. */
  ghost predicate RecordedAfter(dropped: Dropped, first: Dropped, ps: seq<NamespacePurge>, round: nat, next: nat, cuts: (nat, nat) -> int,
                                attempt: (nat, nat) -> Attempt) {
    forall ns ::
      && (ns in dropped ==> ns in first && dropped[ns] == first[ns])
      && (ns in dropped <==> ns in first && forall k, i :: 0 <= k < |ps| && ps[k].namespace == ns && 0 <= i < Done(round, k, next) ==>
            !Forgets(ps[k].dropped, k, i, cuts, attempt))
  }

  lemma RecordedNext(dropped: Dropped, prior: Dropped, first: Dropped, ps: seq<NamespacePurge>, round: nat, k: nat, cuts: (nat, nat) -> int,
                     attempt: (nat, nat) -> Attempt)
    requires k < |ps| && RecordedAfter(prior, first, ps, round, k, cuts, attempt)
    requires dropped == if Forgets(ps[k].dropped, k, round, cuts, attempt) then prior - {ps[k].namespace} else prior
    ensures RecordedAfter(dropped, first, ps, round, k + 1, cuts, attempt)
  {
    assert forall j :: j != k ==> Done(round, j, k + 1) == Done(round, j, k);
  }

  method TryPurge(p: NamespacePurge, now: int, a: Attempt, ghost cut: int)
    requires cut == Retention.PurgeCut(now, p.window, p.retention)
    modifies p.backend, p.record, p.record.file
    ensures p.backend.records == LeftBy(old(p.backend.records), cut, a)
    ensures p.record.dropped ==
      if a.deleteOk && a.outcome == Saved && Passed(p.dropped, cut) then old(p.record.dropped) - {p.namespace} else old(p.record.dropped)
  {
    var ok := Purge(p, now, a.deleteOk, a.lost, a.outcome);
  }

  /** One round: a failure does not stop the other purges. */
  method PurgeAll(ps: seq<NamespacePurge>, record: Record, now: int, round: nat, attempt: (nat, nat) -> Attempt,
                  ghost recorded: Dropped, ghost cuts: (nat, nat) -> int)
    requires forall i, j :: 0 <= i < j < |ps| ==> ps[i].backend != ps[j].backend
    requires forall k :: 0 <= k < |ps| ==> ps[k].record == record && cuts(round, k) == Retention.PurgeCut(now, ps[k].window, ps[k].retention)
    requires RecordedAfter(record.dropped, recorded, ps, round, 0, cuts, attempt)
    modifies set k | 0 <= k < |ps| :: ps[k].backend
    modifies record, record.file
    ensures forall k :: 0 <= k < |ps| ==> ps[k].backend.records == LeftBy(old(ps[k].backend.records), cuts(round, k), attempt(round, k))
    ensures RecordedAfter(record.dropped, recorded, ps, round, |ps|, cuts, attempt)
  {
    for k := 0 to |ps|
      invariant forall j :: 0 <= j < k ==> ps[j].backend.records == LeftBy(old(ps[j].backend.records), cuts(round, j), attempt(round, j))
      invariant forall j :: k <= j < |ps| ==> ps[j].backend.records == old(ps[j].backend.records)
      invariant RecordedAfter(record.dropped, recorded, ps, round, k, cuts, attempt)
    {
      ghost var prior := record.dropped;
      TryPurge(ps[k], now, attempt(round, k), cuts(round, k));
      RecordedNext(record.dropped, prior, recorded, ps, round, k, cuts, attempt);
    }
  }

  /** RunPurge for `rounds` waits, with purges that take no time: the rounds fall where the schedule puts
      them, and what each namespace holds and what the record still names is what their attempts leave. */
  method RunPurge(ps: seq<NamespacePurge>, record: Record, window: int, start: int, rounds: nat, attempt: (nat, nat) -> Attempt)
    returns (now: int)
    requires forall i, j :: 0 <= i < j < |ps| ==> ps[i].backend != ps[j].backend
    requires forall k :: 0 <= k < |ps| ==> ps[k].record == record
    modifies set k | 0 <= k < |ps| :: ps[k].backend
    modifies record, record.file
    ensures now == Retention.PurgeAt(start, window, rounds)
    ensures forall k :: 0 <= k < |ps| ==>
      ps[k].backend.records == RecordsAfter(old(ps[k].backend.records), k, rounds + 1, Cuts(ps, window, start), attempt)
    ensures RecordedAfter(record.dropped, old(record.dropped), ps, rounds + 1, 0, Cuts(ps, window, start), attempt)
  {
    ghost var cuts := Cuts(ps, window, start);
    now := start;
    var round := 0;
    while true
      invariant round <= rounds && now == Retention.PurgeAt(start, window, round)
      invariant forall k :: 0 <= k < |ps| ==> ps[k].backend.records == RecordsAfter(old(ps[k].backend.records), k, round, cuts, attempt)
      invariant RecordedAfter(record.dropped, old(record.dropped), ps, round, 0, cuts, attempt)
      decreases rounds - round
    {
      PurgeAll(ps, record, now, round, attempt, old(record.dropped), cuts);
      RoundDone(ps, record.dropped, old(record.dropped), round, cuts, attempt);
      if round == rounds {
        return;
      }
      now := now + Retention.UntilPurge(now, window);
      round := round + 1;
    }
  }

  lemma RoundDone(ps: seq<NamespacePurge>, dropped: Dropped, recorded: Dropped, round: nat, cuts: (nat, nat) -> int, attempt: (nat, nat) -> Attempt)
    requires RecordedAfter(dropped, recorded, ps, round, |ps|, cuts, attempt)
    ensures RecordedAfter(dropped, recorded, ps, round + 1, 0, cuts, attempt)
  {
    assert forall k :: 0 <= k < |ps| ==> Done(round, k, |ps|) == Done(round + 1, k, 0);
  }

  lemma {:induction false} DeletedStaysDeleted(records: set<Kept>, k: nat, i: nat, n: nat, cuts: (nat, nat) -> int, attempt: (nat, nat) -> Attempt, r: Kept)
    requires i < n && attempt(i, k).deleteOk && r.time < cuts(i, k)
    ensures r !in RecordsAfter(records, k, n, cuts, attempt)
  {
    if i < n - 1 {
      DeletedStaysDeleted(records, k, i, n - 1, cuts, attempt, r);
    }
  }

  lemma {:induction false} YoungerStays(records: set<Kept>, k: nat, n: nat, cuts: (nat, nat) -> int, attempt: (nat, nat) -> Attempt, r: Kept)
    requires r in records && forall i: nat :: i < n ==> cuts(i, k) <= r.time
    ensures r in RecordsAfter(records, k, n, cuts, attempt)
  {
    if n > 0 {
      YoungerStays(records, k, n - 1, cuts, attempt, r);
    }
  }

  lemma {:induction false} NothingIsAdded(records: set<Kept>, k: nat, n: nat, cuts: (nat, nat) -> int, attempt: (nat, nat) -> Attempt)
    ensures RecordsAfter(records, k, n, cuts, attempt) <= records
  {
    if n > 0 {
      NothingIsAdded(records, k, n - 1, cuts, attempt);
    }
  }

  /** No purge deletes a record that has not expired when it runs, from the epoch on, and none adds one. */
  lemma UnexpiredRecordsStay(ps: seq<NamespacePurge>, k: nat, records: set<Kept>, window: int, start: int, n: nat,
                             attempt: (nat, nat) -> Attempt, r: Kept)
    requires k < |ps| && ps[k].window > 0 && r in records
    requires forall i: nat :: i < n ==>
      0 <= Retention.PurgeAt(start, window, i) && Retention.PurgeAt(start, window, i) <= r.time + ps[k].retention
    ensures r in RecordsAfter(records, k, n, Cuts(ps, window, start), attempt)
    ensures RecordsAfter(records, k, n, Cuts(ps, window, start), attempt) <= records
  {
    var cuts := Cuts(ps, window, start);
    forall i: nat | i < n ensures cuts(i, k) <= r.time {
      Retention.CutIsNotLate(Retention.PurgeAt(start, window, i), ps[k].window, ps[k].retention);
    }
    YoungerStays(records, k, n, cuts, attempt, r);
    NothingIsAdded(records, k, n, cuts, attempt);
  }

  /** With retention a whole number of windows and deletes that work, a round no later than
      t + retention + window + one purge delay leaves nothing of time `t` or before, for good. */
  lemma ExpiredRecordsAreGone(ps: seq<NamespacePurge>, k: nat, records: set<Kept>, window: int, start: int, attempt: (nat, nat) -> Attempt,
                              t: int, end: int) returns (i: nat)
    requires k < |ps| && window > 0 && ps[k].window == window && ps[k].retention >= 0 && ps[k].retention % window == 0
    requires 0 <= t && Retention.PURGE_DELAY <= start <= end && t + ps[k].retention + window + Retention.PURGE_DELAY <= end
    requires forall j: nat :: attempt(j, k).deleteOk
    ensures Retention.PurgeAt(start, window, i) <= end
    ensures forall n: nat, r :: i < n && r in RecordsAfter(records, k, n, Cuts(ps, window, start), attempt) ==> r.time > t
  {
    i := Retention.ExpiredRecordIsDeleted(start, window, ps[k].retention, t, end);
    var cuts := Cuts(ps, window, start);
    forall n: nat, r | i < n && r in RecordsAfter(records, k, n, cuts, attempt) ensures r.time > t {
      if r.time <= t {
        DeletedStaysDeleted(records, k, i, n, cuts, attempt, r);
      }
    }
  }

  // ---------- A start ----------

  /** The stores a start opens, each namespace's once; `available` is what opening would give. */
  class StoreSet {
    const available: map<string, Backend>
    var stores: map<string, Backend>

    constructor (available: map<string, Backend>)
      ensures this.available == available && stores == map[]
    {
      this.available := available;
      stores := map[];
    }

    ghost predicate Valid()
      reads this
    {
      forall ns :: ns in stores ==> ns in available && stores[ns] == available[ns]
    }

    method Get(ns: string) returns (ok: bool)
      requires Valid()
      modifies this
      ensures Valid() && ok == (ns in available)
      ensures stores == (if ok then old(stores)[ns := available[ns]] else old(stores))
    {
      if ns in stores {
        return true;
      }
      if ns !in available {
        return false;
      }
      stores := stores[ns := available[ns]];
      return true;
    }
  }

  /** What a start leaves in the record when every save succeeds. */
  function Started(dropped: Dropped, configured: set<string>, now: int): Dropped {
    map ns | ns in dropped.Keys + configured :: StartedAt(dropped, configured, ns, now)
  }

  function StartedAt(dropped: Dropped, configured: set<string>, ns: string, now: int): Option<int> {
    if ns in configured then None else Some(DroppedAt(dropped, ns).GetOr(now))
  }

  /** The purge a start makes for `ns` once it is in the record. */
  ghost predicate PurgerFor(p: NamespacePurge, ns: string, stores: map<string, Backend>, record: Record, dropped: Dropped, retention: int, window: int) {
    ns in dropped && ns in stores && p == NamespacePurge(ns, stores[ns], record, retention, window, dropped[ns])
  }

  /** newLongMemory: the configured namespaces recorded, every other recorded one dropped at `now`
      unless it already was, and a purge for every recorded namespace, in order. It fails when a
      store cannot be opened or a save fails, and then has taken no namespace off the file. */
  method NewLongMemory(opening: StoreSet, record: Record, namespace: string, groups: map<string, string>, retention: int, window: int,
                       now: int, configuring: SaveOutcome, dropping: string -> SaveOutcome)
    returns (ok: bool, purgers: seq<NamespacePurge>)
    requires opening.Valid() && record.dropped == record.file.content
    modifies opening, record, record.file
    ensures opening.Valid()
    ensures ok ==>
      && record.dropped == record.file.content == Started(old(record.dropped), {namespace} + groups.Values, now)
      && SortedNames(NamesOf(purgers), record.dropped.Keys)
      && PurgersFor(purgers, opening.stores, record, record.dropped, retention, window)
    ensures ok ==> forall ns ::
      && (ns in record.dropped <==> ns in old(record.dropped) || ns == namespace || ns in groups.Values)
      && (ns == namespace || ns in groups.Values ==> record.dropped[ns] == None)
      && (ns in old(record.dropped) && ns != namespace && ns !in groups.Values ==>
            record.dropped[ns] == Some(if old(record.dropped)[ns].Some? then old(record.dropped)[ns].value else now))
    ensures !ok ==> old(record.dropped).Keys <= record.file.content.Keys
  {
    purgers := [];
    ghost var dropped := record.dropped;
    var configured;
    ok, configured := OpenConfigured(opening, namespace, groups);
    if !ok {
      return;
    }
    var names := Elements(configured);
    ok := record.Configured(names, configuring);
    if !ok {
      return;
    }
    var recorded := record.Names();
    ok, purgers := MakePurgers(opening, record, configured, recorded, retention, window, now, dropping);
    if ok {
      StartedAfterConfiguring(dropped, configured, now);
    }
  }

  function NamesOf(ps: seq<NamespacePurge>): seq<string> {
    seq(|ps|, i requires 0 <= i < |ps| => ps[i].namespace)
  }

  ghost predicate PurgersFor(ps: seq<NamespacePurge>, stores: map<string, Backend>, record: Record, dropped: Dropped, retention: int, window: int) {
    forall k :: 0 <= k < |ps| ==> PurgerFor(ps[k], ps[k].namespace, stores, record, dropped, retention, window)
  }

  lemma StartedAfterConfiguring(dropped: Dropped, configured: set<string>, now: int)
    ensures Started(WithConfigured(dropped, configured), configured, now) == Started(dropped, configured, now)
  {
  }

  method OpenConfigured(opening: StoreSet, namespace: string, groups: map<string, string>) returns (ok: bool, configured: set<string>)
    requires opening.Valid()
    modifies opening
    ensures opening.Valid()
    ensures ok ==> configured == {namespace} + groups.Values
  {
    configured := {namespace};
    ok := opening.Get(namespace);
    if !ok {
      return;
    }
    var chats := groups.Keys;
    while chats != {}
      invariant opening.Valid() && chats <= groups.Keys
      invariant forall ns :: ns in configured <==> ns == namespace || exists chat :: chat in groups && chat !in chats && groups[chat] == ns
      decreases |chats|
    {
      var chat :| chat in chats;
      ok := opening.Get(groups[chat]);
      if !ok {
        return;
      }
      configured := configured + {groups[chat]};
      chats := chats - {chat};
    }
    return true, configured;
  }

  /** The first `n` of the recorded namespaces are dropped at `now` where they have to be, the rest are as they were. */
  ghost predicate StartedUpTo(dropped: Dropped, first: Dropped, configured: set<string>, recorded: seq<string>, n: nat, now: int) {
    forall k :: 0 <= k < |recorded| ==>
      && recorded[k] in dropped && recorded[k] in first
      && dropped[recorded[k]] == if n <= k then first[recorded[k]] else StartedAt(first, configured, recorded[k], now)
  }

  lemma StartedNext(dropped: Dropped, prior: Dropped, first: Dropped, configured: set<string>, recorded: seq<string>, n: nat, now: int)
    requires n < |recorded| && SortedNames(recorded, first.Keys) && StartedUpTo(prior, first, configured, recorded, n, now)
    requires dropped == prior[recorded[n] := StartedAt(prior, configured, recorded[n], now)]
    ensures StartedUpTo(dropped, first, configured, recorded, n + 1, now)
  {
    Distinct(recorded, first.Keys);
  }

  lemma AllStarted(dropped: Dropped, first: Dropped, configured: set<string>, recorded: seq<string>, now: int)
    requires SortedNames(recorded, first.Keys) && StartedUpTo(dropped, first, configured, recorded, |recorded|, now)
    requires dropped.Keys == first.Keys && configured <= first.Keys
    ensures dropped == Started(first, configured, now)
  {
    forall ns | ns in first ensures dropped[ns] == StartedAt(first, configured, ns, now) {
      assert ns in recorded;
    }
  }

  ghost predicate MadeFor(p: NamespacePurge, stores: map<string, Backend>, record: Record, retention: int, window: int,
                          first: Dropped, configured: set<string>, now: int) {
    p.namespace in stores &&
    p == NamespacePurge(p.namespace, stores[p.namespace], record, retention, window, StartedAt(first, configured, p.namespace, now))
  }

  /** Drops `ns` unless it is configured, and returns since when it is dropped. */
  method DropUnlessConfigured(record: Record, configured: set<string>, ns: string, now: int, dropping: SaveOutcome)
    returns (ok: bool, dropped: Option<int>)
    requires record.dropped == record.file.content
    requires ns in record.dropped && (ns in configured ==> record.dropped[ns] == None)
    modifies record, record.file
    ensures record.file.content.Keys == old(record.dropped).Keys
    ensures ok ==>
      && dropped == StartedAt(old(record.dropped), configured, ns, now)
      && record.dropped == record.file.content == old(record.dropped)[ns := dropped]
  {
    if ns in configured {
      return true, None;
    }
    ok, dropped := record.Drop(ns, now, dropping);
  }

  /** The purge of one recorded namespace, dropped first where it has to be. */
  method MakePurger(opening: StoreSet, record: Record, configured: set<string>, ns: string, retention: int, window: int, now: int, dropping: SaveOutcome)
    returns (ok: bool, p: Option<NamespacePurge>)
    requires opening.Valid() && record.dropped == record.file.content
    requires ns in record.dropped && (ns in configured ==> record.dropped[ns] == None)
    modifies opening, record, record.file
    ensures opening.Valid() && record.file.content.Keys == old(record.dropped).Keys
    ensures forall n :: n in old(opening.stores) ==> n in opening.stores && opening.stores[n] == old(opening.stores)[n]
    ensures ok ==>
      var dropped := StartedAt(old(record.dropped), configured, ns, now);
      && record.dropped == record.file.content == old(record.dropped)[ns := dropped]
      && ns in opening.stores && p == Some(NamespacePurge(ns, opening.stores[ns], record, retention, window, dropped))
  {
    p := None;
    ok := opening.Get(ns);
    if !ok {
      return;
    }
    var dropped;
    ok, dropped := DropUnlessConfigured(record, configured, ns, now, dropping);
    if ok {
      p := Some(NamespacePurge(ns, opening.stores[ns], record, retention, window, dropped));
    }
  }

  method MakePurgers(opening: StoreSet, record: Record, configured: set<string>, recorded: seq<string>, retention: int, window: int,
                     now: int, dropping: string -> SaveOutcome)
    returns (ok: bool, purgers: seq<NamespacePurge>)
    requires opening.Valid() && record.dropped == record.file.content && SortedNames(recorded, record.dropped.Keys)
    requires configured <= record.dropped.Keys && forall ns :: ns in configured ==> record.dropped[ns] == None
    modifies opening, record, record.file
    ensures opening.Valid() && record.file.content.Keys == old(record.dropped).Keys
    ensures ok ==>
      && record.dropped == record.file.content == Started(old(record.dropped), configured, now)
      && NamesOf(purgers) == recorded
      && PurgersFor(purgers, opening.stores, record, record.dropped, retention, window)
  {
    purgers := [];
    ghost var first := record.dropped;
    for i := 0 to |recorded|
      invariant opening.Valid() && record.dropped == record.file.content && record.dropped.Keys == first.Keys
      invariant StartedUpTo(record.dropped, first, configured, recorded, i, now)
      invariant |purgers| == i && forall k :: 0 <= k < i ==>
        purgers[k].namespace == recorded[k] && MadeFor(purgers[k], opening.stores, record, retention, window, first, configured, now)
    {
      ghost var prior := record.dropped;
      var p;
      ok, p := MakePurger(opening, record, configured, recorded[i], retention, window, now, dropping(recorded[i]));
      if !ok {
        return;
      }
      StartedNext(record.dropped, prior, first, configured, recorded, i, now);
      purgers := purgers + [p.value];
    }
    ok := true;
    AllStarted(record.dropped, first, configured, recorded, now);
  }

  lemma Distinct(names: seq<string>, keys: set<string>)
    requires SortedNames(names, keys)
    ensures forall i, j :: 0 <= i < |names| && 0 <= j < |names| && i != j ==> names[i] != names[j]
  {
    forall i, j | 0 <= i < j < |names| ensures names[i] != names[j] {
      if names[i] == names[j] {
        Text.LessAsymmetric(names[i], names[j]);
      }
    }
  }

  // ---------- Withdrawal's erase ----------

  datatype EraseResult = EraseResult(namespace: string, ok: bool)

  /** The engine's long-term memory, for each user's withdrawal count. */
  class Memory {
    var withdrawn: map<string, nat>

    constructor ()
      ensures withdrawn == map[]
    {
      withdrawn := map[];
    }

    method Withdraw(user: string)
      modifies this
      ensures withdrawn == CountedOnce(old(withdrawn), user)
    {
      withdrawn := withdrawn[user := (if user in withdrawn then withdrawn[user] else 0) + 1];
    }
  }

  predicate Erased(results: seq<EraseResult>) {
    forall r :: r in results ==> r.ok
  }

  class Eraser {
    const memory: Memory
    const record: Record
    const stores: map<string, Backend>

    constructor (memory: Memory, record: Record, stores: map<string, Backend>)
      ensures this.memory == memory && this.record == record && this.stores == stores
    {
      this.memory, this.record, this.stores := memory, record, stores;
    }

    ghost predicate Valid() {
      forall ns, ns' :: ns in stores && ns' in stores && ns != ns' ==> stores[ns] != stores[ns']
    }

    /** Erases `user` in every recorded namespace, in order, whichever of them fail: a namespace with
        no store, and one in `fails`, which may lose part. */
    method Erase(user: string, fails: set<string>, lost: set<Kept>) returns (results: seq<EraseResult>)
      requires Valid()
      modifies memory, stores.Values
      ensures memory.withdrawn == CountedOnce(old(memory.withdrawn), user)
      ensures SortedNames(Erasures(results), record.dropped.Keys)
      ensures forall r :: r in results ==> (r.ok <==> r.namespace in stores && r.namespace !in fails)
      ensures forall ns :: ns in stores ==>
        stores[ns].records == (if ns in record.dropped then Spared(old(stores[ns].records), user, ns !in fails, lost) else old(stores[ns].records))
      ensures forall ns :: ns in stores ==>
        && stores[ns].records <= old(stores[ns].records)
        && forall r :: r in old(stores[ns].records) && r.subject != user ==> r in stores[ns].records
      ensures Erased(results) ==> forall ns :: ns in record.dropped ==> ns in stores && forall r :: r in stores[ns].records ==> r.subject != user
    {
      memory.Withdraw(user);
      results := [];
      var names := record.Names();
      Distinct(names, record.dropped.Keys);
      for i := 0 to |names|
        invariant memory.withdrawn == CountedOnce(old(memory.withdrawn), user)
        invariant |results| == i && forall k :: 0 <= k < i ==> results[k].namespace == names[k]
        invariant forall k :: 0 <= k < i ==> (results[k].ok <==> names[k] in stores && names[k] !in fails)
        invariant forall ns :: ns in stores && ns !in names[..i] ==> stores[ns].records == old(stores[ns].records)
        invariant forall k :: 0 <= k < i && names[k] in stores ==> stores[names[k]].records == Spared(old(stores[names[k]].records), user, names[k] !in fails, lost)
      {
        var ns := names[i];
        var ok := false;
        if ns in stores {
          ok := ns !in fails;
          stores[ns].DeleteSubject(user, ok, lost);
        }
        results := results + [EraseResult(ns, ok)];
      }
      assert Erasures(results) == names;
      assert forall ns :: ns in record.dropped <==> ns in names;
      if Erased(results) {
        forall ns | ns in record.dropped ensures ns in stores && ns !in fails {
          var k :| 0 <= k < |names| && names[k] == ns;
          assert results[k] in results;
        }
      }
    }
  }

  function Erasures(results: seq<EraseResult>): seq<string> {
    seq(|results|, i requires 0 <= i < |results| => results[i].namespace)
  }
}
