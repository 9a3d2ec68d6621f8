/** Retention windows and the purge schedule (internal/core long-term memory, internal/runtime purge).
    Times and durations are nanoseconds, times counted from the Unix epoch. */
module Retention {

  const PURGE_DELAY := 60_000_000_000

  /** Go's Duration.Truncate, which rounds toward zero and leaves d alone for a window of zero or less. */
  function Truncate(d: int, w: int): int {
    if w <= 0 then d else if d >= 0 then d - d % w else -(-d - -d % w)
  }

  function WindowStart(t: int, w: int): int {
    Truncate(t, w)
  }

  /** How long from `t` until the next purge. */
  function UntilPurge(t: int, w: int): int {
    WindowStart(t - PURGE_DELAY, w) + (w + PURGE_DELAY) - t
  }

  function PurgeCut(now: int, w: int, retention: int): int {
    WindowStart(now, w) - retention
  }

  // ---------- Windows ----------

  lemma NonNegativeProduct(a: int, b: int)
    requires a >= 0 && b >= 0
    ensures a * b >= 0
  {
  }

  lemma MultiplesAreApart(a: int, b: int, w: int)
    requires w >= 0
    ensures a <= b ==> a * w <= b * w
    ensures a < b ==> a * w + w <= b * w
  {
    if a < b {
      NonNegativeProduct(b - a - 1, w);
      assert (b - a - 1) * w == b * w - a * w - w;
    }
  }

  lemma MultipleRules(k: int, w: int)
    requires w > 0
    ensures (k * w) % w == 0 && (k * w) / w == k
  {
    var q := (k * w) / w;
    assert k * w == w * q + (k * w) % w;
    MultiplesAreApart(k, q, w);
    MultiplesAreApart(q, k, w);
  }

  lemma NegatedMultiple(d: int, w: int)
    requires w > 0
    ensures -d % w == 0 <==> d % w == 0
  {
    MultipleRules(-(d / w), w);
    MultipleRules(-(-d / w), w);
    assert -(d / w) * w == -((d / w) * w) && -(-d / w) * w == -((-d / w) * w);
  }

  /** A multiple of `w` not above `t` is not above the start of t's window. */
  lemma StartIsLastBoundary(t: int, w: int, b: int)
    requires w > 0 && t >= 0 && b % w == 0 && b <= t
    ensures b <= WindowStart(t, w)
  {
    assert t == (t / w) * w + t % w && b == (b / w) * w;
    MultiplesAreApart(b / w, t / w, w);
    MultiplesAreApart(t / w, b / w, w);
  }

  /** A window start is a boundary, and t lies in [start, start + w) exactly when t is not before the
      epoch or is a boundary itself: before it, windows are rounded up. */
  lemma WindowStartPlaces(t: int, w: int)
    requires w > 0
    ensures WindowStart(t, w) % w == 0
    ensures t - w < WindowStart(t, w) < t + w
    ensures WindowStart(t, w) <= t <==> t >= 0 || t % w == 0
  {
    var d := if t >= 0 then t else -t;
    assert d == (d / w) * w + d % w;
    MultipleRules(d / w, w);
    MultipleRules(-(d / w), w);
    assert -(d / w) * w == -((d / w) * w);
    NegatedMultiple(d, w);
  }

  lemma ShiftKeepsBoundary(b: int, w: int, k: int)
    requires w > 0 && b % w == 0
    ensures (b + k * w) % w == 0
  {
    assert b == (b / w) * w;
    assert b + k * w == (b / w + k) * w;
    MultipleRules(b / w + k, w);
  }

  lemma SumOfMultiples(a: int, b: int, w: int)
    requires w > 0 && a % w == 0 && b % w == 0
    ensures (a - b) % w == 0 && (a + b) % w == 0
  {
    assert b == (b / w) * w;
    ShiftKeepsBoundary(a, w, b / w);
    ShiftKeepsBoundary(a, w, -(b / w));
    assert -(b / w) * w == -b;
  }

  // ---------- The cut ----------

  /** A purge at `now` deletes all of a window's turns or none of them. */
  ghost predicate SplitsNoWindow(cut: int, w: int) {
    forall s, t :: 0 <= s && 0 <= t && WindowStart(s, w) == WindowStart(t, w) ==> (s < cut <==> t < cut)
  }

  lemma BoundarySplitsNoWindow(cut: int, w: int, s: int, t: int)
    requires w > 0 && cut % w == 0 && 0 <= s && 0 <= t && WindowStart(s, w) == WindowStart(t, w) && s < cut
    ensures t < cut
  {
    if cut <= t {
      StartIsLastBoundary(t, w, cut);
      WindowStartPlaces(s, w);
    }
  }

  /** ADR 0023 section 2: the purge deletes whole sessions, whenever it runs, exactly because
      retention is a whole number of windows. */
  lemma CutSplitsNoWindowIff(now: int, w: int, retention: int)
    requires w > 0 && PurgeCut(now, w, retention) > 0
    ensures SplitsNoWindow(PurgeCut(now, w, retention), w) <==> retention % w == 0
  {
    var cut := PurgeCut(now, w, retention);
    CutIsBoundaryIff(now, w, retention);
    if cut % w == 0 {
      forall s, t | 0 <= s && 0 <= t && WindowStart(s, w) == WindowStart(t, w) ensures s < cut <==> t < cut {
        if s < cut {
          BoundarySplitsNoWindow(cut, w, s, t);
        } else if t < cut {
          BoundarySplitsNoWindow(cut, w, t, s);
        }
      }
    } else {
      InnerCutSplits(cut, w);
    }
  }

  lemma CutIsBoundaryIff(now: int, w: int, retention: int)
    requires w > 0
    ensures PurgeCut(now, w, retention) % w == 0 <==> retention % w == 0
  {
    var start := WindowStart(now, w);
    WindowStartPlaces(now, w);
    if retention % w == 0 {
      SumOfMultiples(start, retention, w);
    } else if (start - retention) % w == 0 {
      SumOfMultiples(start, start - retention, w);
    }
  }

  lemma EarlierInWindow(cut: int, w: int) returns (b: int)
    requires w > 0 && cut > 0 && cut % w != 0
    ensures 0 <= b < cut && WindowStart(b, w) == WindowStart(cut, w)
  {
    b := WindowStart(cut, w);
    WindowStartPlaces(cut, w);
    StartIsLastBoundary(cut, w, 0);
  }

  lemma InnerCutSplits(cut: int, w: int)
    requires w > 0 && cut > 0 && cut % w != 0
    ensures !SplitsNoWindow(cut, w)
  {
    var b := EarlierInWindow(cut, w);
  }

  /** Nothing is deleted before it expires, from the epoch on. */
  lemma CutIsNotLate(now: int, w: int, retention: int)
    requires w > 0
    ensures PurgeCut(now, w, retention) <= now - retention <==> now >= 0 || now % w == 0
  {
    WindowStartPlaces(now, w);
  }

  // ---------- The schedule ----------

  /** The wait always ends one purge delay past a boundary, and is within (0, w] exactly when a
      purge delay has passed since the epoch (or `t` is itself one delay past a boundary). */
  lemma UntilPurgeLands(t: int, w: int)
    requires w > 0
    ensures (t + UntilPurge(t, w) - PURGE_DELAY) % w == 0
    ensures 0 < UntilPurge(t, w)
    ensures UntilPurge(t, w) <= w <==> t >= PURGE_DELAY || (t - PURGE_DELAY) % w == 0
  {
    WindowStartPlaces(t - PURGE_DELAY, w);
    ShiftKeepsBoundary(WindowStart(t - PURGE_DELAY, w), w, 1);
  }

  /** The time of RunPurge's i-th round when purges take no time: at once, then after each wait. */
  function PurgeAt(start: int, w: int, i: nat): int {
    if i == 0 then start else var p := PurgeAt(start, w, i - 1); p + UntilPurge(p, w)
  }

  lemma {:induction false} PurgeAtShifts(start: int, w: int, i: nat)
    ensures PurgeAt(start, w, i + 1) == PurgeAt(start + UntilPurge(start, w), w, i)
  {
    if i > 0 {
      PurgeAtShifts(start, w, i - 1);
    }
  }

  lemma NextPurgeIsNext(t: int, w: int, at: int)
    requires w > 0 && PURGE_DELAY <= t < at && (at - PURGE_DELAY) % w == 0
    ensures t + UntilPurge(t, w) <= at
  {
    WindowStartPlaces(t - PURGE_DELAY, w);
    BoundariesAreApart(WindowStart(t - PURGE_DELAY, w), at - PURGE_DELAY, w, t - PURGE_DELAY);
  }

  /** No boundary is missed: a purge runs one delay past every one of them. */
  lemma {:induction false} EveryBoundaryIsPurged(start: int, w: int, at: int) returns (i: nat)
    requires w > 0 && PURGE_DELAY <= start <= at && (at - PURGE_DELAY) % w == 0
    ensures PurgeAt(start, w, i) == at
    decreases at - start
  {
    if start == at {
      i := 0;
    } else {
      UntilPurgeLands(start, w);
      var next := start + UntilPurge(start, w);
      NextPurgeIsNext(start, w, at);
      i := EveryBoundaryIsPurged(next, w, at);
      PurgeAtShifts(start, w, i);
      i := i + 1;
    }
  }

  lemma BoundariesAreApart(a: int, b: int, w: int, t: int)
    requires w > 0 && a % w == 0 && b % w == 0 && a <= t < b
    ensures a + w <= b
  {
    assert a == (a / w) * w && b == (b / w) * w;
    MultiplesAreApart(a / w, b / w, w);
    MultiplesAreApart(b / w, a / w, w);
  }

  /** With retention a whole number of windows, every record of time `t` is deleted by
      t + retention + window + one purge delay, wherever the process started before that. */
  lemma ExpiredRecordIsDeleted(start: int, w: int, retention: int, t: int, end: int) returns (i: nat)
    requires w > 0 && retention >= 0 && retention % w == 0
    requires 0 <= t && PURGE_DELAY <= start <= end && t + retention + w + PURGE_DELAY <= end
    ensures PurgeAt(start, w, i) <= end && t < PurgeCut(PurgeAt(start, w, i), w, retention)
  {
    var b := WindowStart(t + retention, w) + w;
    WindowStartPlaces(t + retention, w);
    ShiftKeepsBoundary(WindowStart(t + retention, w), w, 1);
    assert b % w == 0 && t + retention < b <= t + retention + w;
    if b + PURGE_DELAY < start {
      i := 0;
      StartIsLastBoundary(start, w, b);
    } else {
      i := EveryBoundaryIsPurged(start, w, b + PURGE_DELAY);
      StartIsLastBoundary(b + PURGE_DELAY, w, b);
    }
  }
}
