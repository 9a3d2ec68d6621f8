/** Access control (internal/acl): the consent gate, the per-user fixed-window rate limit
    and the nudge cooldown. Times are nanoseconds; the zero time is None. */
module Acl {
  import opened Options

  const RATE_WINDOW := 3_600_000_000_000
  const UNLIMITED_RATE := -1

  datatype Consent = Unknown | Granted | Declined

  datatype Record = Record(user: string, tier: string, consent: Consent, rateCount: int, rateStart: Option<int>)

  datatype Decision = Serve | LogOnly | Nudge | Refuse | RateLimited | Silent

  // ---------- The store and the tier policy ----------

  function Lookup(store: map<string, Record>, user: string): Record {
    if user in store then store[user] else Record(user, "", Unknown, 0, None)
  }

  function WithConsent(store: map<string, Record>, user: string, c: Consent): map<string, Record> {
    store[user := Lookup(store, user).(consent := c)]
  }

  function AllowanceFor(tier: string): int {
    if tier == "unlimited" || tier == "admin" then UNLIMITED_RATE
    else if tier == "trusted" then 120
    else if tier == "throttled" then 5
    else 30
  }

  /** A user with no tier of their own has the default one. */
  function Allowance(rec: Record, defTier: string): (a: int)
    ensures rec.tier != "" ==> a == AllowanceFor(rec.tier)
    ensures rec.tier == "" ==> a == AllowanceFor(defTier)
  {
    AllowanceFor(if rec.tier != "" then rec.tier else defTier)
  }

  // ---------- The decision of one Check ----------

  /** What Check makes of the record its Get read; `Admit` still has that record, counted, to Put. */
  datatype Verdict = Quiet | Unasked | Ambient | Throttled | Admit(put: Record)

  /** The record with its window rolled, when it has elapsed, before the query is counted. */
  function Rolled(rec: Record, now: int): Record {
    if rec.rateStart.None? || now - rec.rateStart.value >= RATE_WINDOW
    then rec.(rateStart := Some(now), rateCount := 0)
    else rec
  }

  function Judge(rec: Record, directed: bool, defTier: string, now: int): Verdict {
    if rec.consent == Declined then Quiet
    else if rec.consent != Granted then (if directed then Unasked else Quiet)
    else if !directed then Ambient
    else
      var allow, r := Allowance(rec, defTier), Rolled(rec, now);
      if allow != UNLIMITED_RATE && r.rateCount >= allow then Throttled
      else Admit(r.(rateCount := r.rateCount + 1))
  }

  /** Fewer queries are counted in the rate window `now` falls in than the user's tier allows. */
  predicate HasRoom(rec: Record, defTier: string, now: int) {
    var allow := Allowance(rec, defTier);
    var over := rec.rateStart.None? || now - rec.rateStart.value >= RATE_WINDOW;
    allow == UNLIMITED_RATE || (if over then 0 else rec.rateCount) < allow
  }

  /** The tier policy: a tier that is not one of these allows what the default does. */
  lemma TierAllowances(tier: string)
    ensures tier in {"unlimited", "admin"} ==> AllowanceFor(tier) == -1
    ensures tier == "trusted" ==> AllowanceFor(tier) == 120
    ensures tier == "throttled" ==> AllowanceFor(tier) == 5
    ensures tier !in {"unlimited", "admin", "trusted", "throttled"} ==> AllowanceFor(tier) == 30
  {
  }

  // ---------- The nudge cooldown ----------

  function Live(nudged: map<string, int>, cooldown: int, now: int): map<string, int> {
    map u | u in nudged && now - nudged[u] < cooldown :: nudged[u]
  }

  function NudgeStep(nudged: map<string, int>, cooldown: int, user: string, now: int): (map<string, int>, Decision) {
    if cooldown <= 0 then (nudged, Nudge)
    else
      var live := Live(nudged, cooldown, now);
      if user in live then (live, Silent) else (live[user := now], Nudge)
  }

  class Gate {
    var store: map<string, Record>
    var defTier: string
    var cooldown: int
    var nudged: map<string, int>

    constructor (defaultTier: string)
      ensures store == map[] && nudged == map[] && cooldown == 0 && defTier == defaultTier
    {
      store, defTier, cooldown, nudged := map[], defaultTier, 0, map[];
    }

    method DecideNudge(user: string, now: int) returns (d: Decision)
      modifies this`nudged
      ensures (nudged, d) == NudgeStep(old(nudged), cooldown, user, now)
    {
      if cooldown <= 0 {
        return Nudge;
      }
      var ids := nudged.Keys;
      while ids != {}
        invariant ids <= old(nudged).Keys
        invariant nudged == map u | u in old(nudged) && (u in ids || now - old(nudged)[u] < cooldown) :: old(nudged)[u]
        decreases |ids|
      {
        var id :| id in ids;
        if now - nudged[id] >= cooldown {
          nudged := nudged - {id};
        }
        ids := ids - {id};
      }
      assert nudged == Live(old(nudged), cooldown, now);
      if user in nudged {
        return Silent;
      }
      nudged := nudged[user := now];
      return Nudge;
    }

    /** `user` was nudged less than a cooldown ago. */
    predicate Cooling(user: string, now: int)
      reads this
    {
      cooldown > 0 && user in nudged && now - nudged[user] < cooldown
    }

    /** One Check with no other writer between its Get and its Put. A failed Get or Put refuses. Whoever
        declined is left alone, and only those who have not answered are ever nudged. */
    method Check(user: string, directed: bool, now: int, getOk: bool, putOk: bool) returns (d: Decision)
      modifies this`store, this`nudged
      ensures var rec := Lookup(old(store), user);
        && (getOk && rec.consent == Declined ==> d == Silent && store == old(store) && nudged == old(nudged))
        && (d == Silent <==> getOk && (rec.consent == Declined || (rec.consent == Unknown && (!directed || old(Cooling(user, now))))))
        && (d == Nudge <==> getOk && rec.consent == Unknown && directed && !old(Cooling(user, now)))
        && (d == LogOnly <==> getOk && rec.consent == Granted && !directed)
        && (d == RateLimited <==> getOk && rec.consent == Granted && directed && !HasRoom(rec, defTier, now))
        && (d == Serve <==> getOk && putOk && rec.consent == Granted && directed && HasRoom(rec, defTier, now))
        && (d == Refuse <==> !getOk || (!putOk && rec.consent == Granted && directed && HasRoom(rec, defTier, now)))
        && (d != Serve ==> store == old(store)) && (d != Nudge && d != Silent ==> nudged == old(nudged))
      ensures !getOk ==> d == Refuse && store == old(store) && nudged == old(nudged)
      ensures getOk ==>
        match Judge(Lookup(old(store), user), directed, defTier, now)
        case Quiet => d == Silent && store == old(store) && nudged == old(nudged)
        case Unasked => store == old(store) && (nudged, d) == NudgeStep(old(nudged), cooldown, user, now)
        case Ambient => d == LogOnly && store == old(store) && nudged == old(nudged)
        case Throttled => d == RateLimited && store == old(store) && nudged == old(nudged)
        case Admit(put) =>
          && nudged == old(nudged)
          && (if putOk then d == Serve && store == old(store)[put.user := put] else d == Refuse && store == old(store))
    {
      if !getOk {
        return Refuse;
      }
      var rec := Lookup(store, user);
      if rec.consent == Declined {
        return Silent;
      }
      if rec.consent != Granted {
        if directed {
          d := DecideNudge(user, now);
          return;
        }
        return Silent;
      }
      if !directed {
        return LogOnly;
      }
      var allow := Allowance(rec, defTier);
      if rec.rateStart.None? || now - rec.rateStart.value >= RATE_WINDOW {
        rec := rec.(rateStart := Some(now), rateCount := 0);
      }
      if allow != UNLIMITED_RATE && rec.rateCount >= allow {
        return RateLimited;
      }
      rec := rec.(rateCount := rec.rateCount + 1);
      if !putOk {
        return Refuse;
      }
      store := store[rec.user := rec];
      return Serve;
    }

    method SetConsent(user: string, c: Consent)
      modifies this`store
      ensures store == WithConsent(old(store), user, c)
      ensures Lookup(store, user) == Lookup(old(store), user).(consent := c)
      ensures forall u :: u != user ==> Lookup(store, u) == Lookup(old(store), u)
    {
      var rec := Lookup(store, user);
      store := store[user := rec.(consent := c)];
    }
  }

  // ---------- The rate limit over a run ----------

  /** What can happen to one user's record, with Checks that do not overlap: a Check, whose Put
      may fail, or an answer to the consent prompt. */
  datatype RateEvent = Check(now: int, directed: bool, putOk: bool) | Answer(consent: Consent)

  function Served(rec: Record, e: RateEvent, defTier: string): bool {
    e.Check? && e.putOk && Judge(rec, e.directed, defTier, e.now).Admit?
  }

  function After(rec: Record, e: RateEvent, defTier: string): Record {
    match e
    case Answer(c) => rec.(consent := c)
    case Check(now, directed, putOk) =>
      if Served(rec, e, defTier) then Judge(rec, directed, defTier, now).put else rec
  }

  /** How many of `events`, from `rec` on, are served at a time within [lo, hi]. */
  function Serves(rec: Record, events: seq<RateEvent>, defTier: string, lo: int, hi: int): nat
    decreases events
  {
    if events == [] then 0
    else
      (if Served(rec, events[0], defTier) && lo <= events[0].now <= hi then 1 else 0) +
      Serves(After(rec, events[0], defTier), events[1..], defTier, lo, hi)
  }

  ghost predicate ClockFrom(t: int, events: seq<RateEvent>)
    decreases events
  {
    events != [] ==>
      if events[0].Check? then t <= events[0].now && ClockFrom(events[0].now, events[1..])
      else ClockFrom(t, events[1..])
  }

  /** The most queries still to be served within [lo, lo + RATE_WINDOW] from `rec` at time `t`. */
  ghost function Room(rec: Record, a: nat, lo: int, t: int): int {
    if t > lo + RATE_WINDOW then 0
    else if rec.rateStart.None? || rec.rateStart.value + RATE_WINDOW <= lo then 2 * a
    else if rec.rateStart.value <= lo then Left(rec, a) + a
    else Left(rec, a)
  }

  function Left(rec: Record, a: nat): int {
    if rec.rateCount >= a then 0 else a - rec.rateCount
  }

  lemma {:induction false} ServesFitRoom(rec: Record, events: seq<RateEvent>, defTier: string, a: nat, lo: int, t: int)
    requires Allowance(rec, defTier) == a
    requires ClockFrom(t, events)
    requires 0 <= rec.rateCount
    requires rec.rateStart.Some? ==> rec.rateStart.value <= t
    ensures Serves(rec, events, defTier, lo, lo + RATE_WINDOW) <= Room(rec, a, lo, t)
    decreases events
  {
    if events != [] {
      var rec' := After(rec, events[0], defTier);
      var t' := if events[0].Check? then events[0].now else t;
      ServesFitRoom(rec', events[1..], defTier, a, lo, t');
    }
  }

  /** ADR 0003's limit, as the fixed windows give it: however its Checks fall, a user with the
      finite allowance `a` is served at most 2a queries in any closed interval one rate window long. */
  lemma ServesPerWindow(rec: Record, events: seq<RateEvent>, defTier: string, lo: int, t: int)
    requires Allowance(rec, defTier) != UNLIMITED_RATE
    requires ClockFrom(t, events)
    requires 0 <= rec.rateCount
    requires rec.rateStart.Some? ==> rec.rateStart.value <= t
    ensures Serves(rec, events, defTier, lo, lo + RATE_WINDOW) <= 2 * Allowance(rec, defTier)
  {
    ServesFitRoom(rec, events, defTier, Allowance(rec, defTier), lo, t);
  }

  /** `n` directed messages at once. */
  function Burst(n: nat, now: int): (r: seq<RateEvent>)
    ensures |r| == n
  {
    seq(n, _ => RateEvent.Check(now, true, true))
  }

  /** All of a burst that fits the allowance are served. */
  lemma {:induction false} BurstIsServed(rec: Record, n: nat, now: int, tail: seq<RateEvent>, defTier: string, lo: int, hi: int)
    requires rec.consent == Granted && n > 0 && lo <= now <= hi
    requires Rolled(rec, now).rateCount + n <= Allowance(rec, defTier)
    ensures var rolled := Rolled(rec, now);
      Serves(rec, Burst(n, now) + tail, defTier, lo, hi) ==
        n + Serves(rolled.(rateCount := rolled.rateCount + n), tail, defTier, lo, hi)
    ensures ClockFrom(now, tail) ==> ClockFrom(now, Burst(n, now) + tail)
    decreases n
  {
    var events := Burst(n, now) + tail;
    var next := After(rec, events[0], defTier);
    if n == 1 {
      assert events[1..] == tail;
    } else {
      assert events[1..] == Burst(n - 1, now) + tail;
      BurstIsServed(next, n - 1, now, tail, defTier, lo, hi);
    }
  }

  /** The bound is reached: from a consented record whose window is over, some run is served exactly twice
      the allowance in one closed interval one rate window long. */
  lemma TwiceTheAllowanceIsServed(rec: Record, defTier: string, lo: int) returns (events: seq<RateEvent>)
    requires rec.consent == Granted && Allowance(rec, defTier) != UNLIMITED_RATE
    requires rec.rateStart.Some? ==> lo - rec.rateStart.value >= RATE_WINDOW
    ensures ClockFrom(lo, events)
    ensures Serves(rec, events, defTier, lo, lo + RATE_WINDOW) == 2 * Allowance(rec, defTier)
  {
    var a, hi := Allowance(rec, defTier), lo + RATE_WINDOW;
    var full := Rolled(rec, lo).(rateCount := a);
    var late := Burst(a, hi);
    assert late + [] == late && Serves(full, late + [], defTier, lo, hi) == a by {
      BurstIsServed(full, a, hi, [], defTier, lo, hi);
    }
    assert ClockFrom(hi, late) by {
      BurstIsServed(full, a, hi, [], defTier, lo, hi);
    }
    events := Burst(a, lo) + late;
    BurstIsServed(rec, a, lo, late, defTier, lo, hi);
  }

  // ---------- The nudge cooldown over a run ----------

  /** An unconsented directed message: who sent it and when. */
  datatype Ask = Ask(user: string, now: int)

  ghost function NudgedAfter(asks: seq<Ask>, n: nat, cooldown: int): map<string, int>
    requires n <= |asks|
  {
    if n == 0 then map[]
    else NudgeStep(NudgedAfter(asks, n - 1, cooldown), cooldown, asks[n - 1].user, asks[n - 1].now).0
  }

  ghost predicate NudgedAt(asks: seq<Ask>, i: nat, cooldown: int)
    requires i < |asks|
  {
    NudgeStep(NudgedAfter(asks, i, cooldown), cooldown, asks[i].user, asks[i].now).1 == Nudge
  }

  ghost predicate Monotone(asks: seq<Ask>) {
    forall i, j :: 0 <= i <= j < |asks| ==> asks[i].now <= asks[j].now
  }

  /** A nudge is remembered until it is a cooldown old. */
  lemma {:induction false} NudgeRemembered(asks: seq<Ask>, i: nat, n: nat, cooldown: int)
    requires i < n <= |asks| && Monotone(asks) && 0 < cooldown
    requires NudgedAt(asks, i, cooldown)
    requires asks[n - 1].now - asks[i].now < cooldown
    ensures var m := NudgedAfter(asks, n, cooldown);
      asks[i].user in m && asks[i].now <= m[asks[i].user]
  {
    if i < n - 1 {
      assert asks[n - 2].now <= asks[n - 1].now;
      NudgeRemembered(asks, i, n - 1, cooldown);
      assert asks[i].now <= asks[n - 1].now;
    }
  }

  /** The gate's map holds nothing but nudges less than a cooldown old. */
  lemma {:induction false} NudgedOnlyRecently(asks: seq<Ask>, n: nat, cooldown: int, u: string) returns (i: nat)
    requires n <= |asks| && Monotone(asks) && 0 < cooldown
    requires u in NudgedAfter(asks, n, cooldown)
    ensures i < n && asks[i] == Ask(u, NudgedAfter(asks, n, cooldown)[u])
    ensures NudgedAt(asks, i, cooldown) && asks[n - 1].now - asks[i].now < cooldown
  {
    var m := NudgedAfter(asks, n - 1, cooldown);
    if u == asks[n - 1].user && NudgedAt(asks, n - 1, cooldown) {
      i := n - 1;
    } else {
      assert u in m && NudgedAfter(asks, n, cooldown)[u] == m[u];
      i := NudgedOnlyRecently(asks, n - 1, cooldown, u);
    }
  }

  /** ADR 0024: two nudges to one user are at least a cooldown apart. */
  lemma NudgesAreApart(asks: seq<Ask>, i: nat, j: nat, cooldown: int)
    requires i < j < |asks| && Monotone(asks)
    requires asks[i].user == asks[j].user
    requires NudgedAt(asks, i, cooldown) && NudgedAt(asks, j, cooldown)
    ensures asks[j].now - asks[i].now >= cooldown
  {
    if 0 < cooldown {
      if asks[j].now - asks[i].now < cooldown {
        assert asks[j - 1].now <= asks[j].now;
        NudgeRemembered(asks, i, j, cooldown);
      }
    }
  }
}
