/** The record of namespaces across starts, purges, failed saves and crashes: over any run, every
    namespace that holds anything stays in the file, where withdrawal and the purge find it, and exactly
    what that asks of the times things were kept. */
module Restarts {
  import opened Options
  import opened LongMemory
  import opened Namespaces
  import Retention

  const MIN_WINDOW := 3_600_000_000_000

  /** What a start is given: the configured namespaces, the window and the retention. */
  datatype Settings = Settings(configured: set<string>, window: int, retention: int) {
    function Cut(now: int): int {
      Retention.PurgeCut(now, window, retention)
    }
  }

  /** What the process is doing: stopped, dropping the namespaces a start found unconfigured, or
      serving, when each recorded namespace has a purge (with the drop time it was made with) and at
      most one purge has deleted and has still to forget. */
  datatype Process =
    | Stopped
    | Starting(settings: Settings, dropped: Dropped, todo: set<string>)
    | Serving(settings: Settings, dropped: Dropped, purgers: Dropped, forgetting: Option<string>)

  datatype State = State(file: Dropped, stores: map<string, set<Kept>>, process: Process)

  datatype Step =
    | Begin(settings: Settings, outcome: SaveOutcome)
    | DropNext(ns: string, now: int, outcome: SaveOutcome)
    | Serve
    | Keep(ns: string, r: Kept)
    | Delete(ns: string, now: int, ok: bool, lost: set<Kept>)
    | Forget(outcome: SaveOutcome)
    | Erase(ns: string, gone: set<Kept>)
    | Stop

  const FIRST := State(map[], map[], Stopped)

  function Records(s: State, ns: string): set<Kept> {
    if ns in s.stores then s.stores[ns] else {}
  }

  /** Starts choose their window from `windows`; the program refuses one under an hour and a retention
      that is not a whole number of windows. */
  ghost predicate Accepts(windows: iset<int>, c: Settings) {
    c.window in windows && c.window >= MIN_WINDOW && c.retention > 0 && c.retention % c.window == 0
  }

  ghost predicate Enabled(windows: iset<int>, s: State, step: Step) {
    match step
    case Begin(settings, _) => s.process.Stopped? && Accepts(windows, settings)
    case DropNext(ns, _, _) => s.process.Starting? && ns in s.process.todo
    case Serve => s.process.Starting? && s.process.todo == {}
    case Keep(ns, _) => s.process.Serving? && ns in s.process.settings.configured
    case Delete(ns, _, _, _) => s.process.Serving? && ns in s.process.purgers && s.process.forgetting == None
    case Forget(_) => s.process.Serving? && s.process.forgetting.Some?
    case Erase(_, _) => s.process.Serving?
    case Stop => true
  }

  function Apply(s: State, step: Step): State
    requires step.DropNext? ==> s.process.Starting?
    requires step.Serve? ==> s.process.Starting?
    requires step.Delete? ==> s.process.Serving? && step.ns in s.process.purgers
    requires step.Forget? ==> s.process.Serving? && s.process.forgetting.Some?
  {
    match step
    case Begin(settings, outcome) =>
      var d := WithConfigured(s.file, settings.configured);
      s.(file := OnDisk(s.file, d, outcome),
         process := if outcome == Saved then Starting(settings, d, d.Keys - settings.configured) else Stopped)
    case DropNext(ns, now, outcome) =>
      var p := s.process;
      if DroppedAt(p.dropped, ns).Some? then s.(process := p.(todo := p.todo - {ns}))
      else
        var d := p.dropped[ns := Some(now)];
        s.(file := OnDisk(s.file, d, outcome),
           process := if outcome == Saved then p.(dropped := d, todo := p.todo - {ns}) else Stopped)
    case Serve =>
      var p := s.process;
      s.(process := Serving(p.settings, p.dropped, p.dropped, None))
    case Keep(ns, r) => s.(stores := s.stores[ns := Records(s, ns) + {r}])
    case Delete(ns, now, ok, lost) =>
      var cut := s.process.settings.Cut(now);
      var due := Older(Records(s, ns), cut);
      var forget := ok && Passed(s.process.purgers[ns], cut);
      s.(stores := s.stores[ns := Records(s, ns) - (if ok then due else due * lost)],
         process := s.process.(forgetting := if forget then Some(ns) else None))
    case Forget(outcome) =>
      var p, ns := s.process, s.process.forgetting.value;
      if ns !in p.dropped then s.(process := p.(forgetting := None))
      else
        s.(file := OnDisk(s.file, p.dropped - {ns}, outcome),
           process := p.(forgetting := None, dropped := if outcome == Saved then p.dropped - {ns} else p.dropped))
    case Erase(ns, gone) => s.(stores := s.stores[ns := Records(s, ns) - gone])
    case Stop => s.(process := Stopped)
  }

  ghost predicate Next(windows: iset<int>, s: State, step: Step, s': State) {
    Enabled(windows, s, step) && s' == Apply(s, step)
  }

  ghost predicate Trace(windows: iset<int>, states: seq<State>, steps: seq<Step>) {
    && |states| == |steps| + 1
    && forall i {:trigger steps[i]} :: 0 <= i < |steps| ==> Next(windows, states[i], steps[i], states[i + 1])
  }

  // ---------- Which times a purge cannot tell apart ----------

  /** A purge of some start may cut at `c`. */
  ghost predicate MayCut(windows: iset<int>, c: int) {
    exists w :: w in windows && w >= MIN_WINDOW && c % w == 0
  }

  /** Any purge whose cut has passed the drop has passed `t` as well. */
  ghost predicate PassedWith(windows: iset<int>, t: int, drop: int) {
    forall c :: drop <= c <= t ==> !MayCut(windows, c)
  }

  lemma CutIsMade(windows: iset<int>, c: Settings, now: int)
    requires Accepts(windows, c)
    ensures MayCut(windows, c.Cut(now))
  {
    Retention.CutIsBoundaryIff(now, c.window, c.retention);
  }

  /** Every cut a purge may make is made by some start at some time. */
  lemma CutIsReached(windows: iset<int>, c: int, configured: set<string>) returns (settings: Settings, now: int)
    requires MayCut(windows, c)
    ensures Accepts(windows, settings) && settings.configured == configured && settings.Cut(now) == c && now > c
  {
    var w :| w in windows && w >= MIN_WINDOW && c % w == 0;
    settings, now := Settings(configured, w, w), c + w;
    Retention.MultipleRules(1, w);
    Retention.SumOfMultiples(c, w, w);
    BoundaryStartsItself(now, w);
  }

  lemma BoundaryStartsItself(t: int, w: int)
    requires w > 0 && t % w == 0
    ensures Retention.WindowStart(t, w) == t
  {
    Retention.NegatedMultiple(t, w);
  }

  /** With one window for every start, that is so exactly of what was kept in a window that began before
      the drop. */
  lemma OneWindow(w: int, t: int, drop: int)
    requires w >= MIN_WINDOW && t >= 0
    ensures PassedWith(iset{w}, t, drop) <==> Retention.WindowStart(t, w) < drop
  {
    var start := Retention.WindowStart(t, w);
    Retention.WindowStartPlaces(t, w);
    assert w in iset{w} && MayCut(iset{w}, start);
    forall c | drop <= c <= t && MayCut(iset{w}, c) ensures drop <= start {
      Retention.StartIsLastBoundary(t, w, c);
    }
  }

  /** When a start may choose any window, only of what was kept before the drop. */
  lemma AnyWindow(windows: iset<int>, t: int, drop: int)
    requires (forall w :: w >= MIN_WINDOW ==> w in windows) && drop >= MIN_WINDOW
    ensures PassedWith(windows, t, drop) <==> t < drop
  {
    Retention.MultipleRules(1, drop);
    assert drop in windows && MayCut(windows, drop);
  }

  /** What a first drop relies on, when it reaches the file. */
  ghost predicate KeptBefore(windows: iset<int>, s: State, step: Step) {
    (step.DropNext? && step.outcome != FailedBefore && s.process.Starting? && DroppedAt(s.process.dropped, step.ns) == None) ==>
      ClearToDrop(windows, s, step.ns, step.now)
  }

  ghost predicate ClearToDrop(windows: iset<int>, s: State, ns: string, now: int) {
    forall r :: r in Records(s, ns) ==> PassedWith(windows, r.time, now)
  }

  // ---------- The invariant ----------

  ghost predicate PassedWithDrops(windows: iset<int>, s: State, dropped: Dropped) {
    forall ns, r :: ns in dropped && dropped[ns].Some? && r in Records(s, ns) ==> PassedWith(windows, r.time, dropped[ns].value)
  }

  /** Every namespace that holds a record is a key of `dropped`. */
  ghost predicate Covered(s: State, dropped: Dropped) {
    forall ns :: Records(s, ns) != {} ==> ns in dropped
  }

  ghost predicate ServingInv(windows: iset<int>, s: State) {
    s.process.Serving? ==>
      var p := s.process;
      && Accepts(windows, p.settings)
      && Covered(s, p.dropped) && Covered(s, p.purgers) && PassedWithDrops(windows, s, p.purgers)
      && (forall ns :: ns in p.settings.configured ==>
            ns in p.dropped && ns in s.file && s.file[ns] == None && ns in p.purgers && p.purgers[ns] == None)
      && (p.forgetting.Some? ==> p.forgetting.value !in p.settings.configured && Records(s, p.forgetting.value) == {})
      && (forall ns :: ns in p.dropped ==> ns in p.purgers && p.dropped[ns] == p.purgers[ns])
  }

  ghost predicate Inv(windows: iset<int>, s: State) {
    && Covered(s, s.file) && PassedWithDrops(windows, s, s.file)
    && (s.process.Starting? ==>
          && Accepts(windows, s.process.settings)
          && s.process.dropped == s.file && s.process.settings.configured <= s.file.Keys && s.process.todo <= s.file.Keys
          && forall ns :: ns in s.process.settings.configured ==> s.file[ns] == None && ns !in s.process.todo)
    && ServingInv(windows, s)
  }

  lemma StartingStep(windows: iset<int>, s: State, step: Step)
    requires Inv(windows, s) && Enabled(windows, s, step) && KeptBefore(windows, s, step) && !s.process.Serving?
    ensures Inv(windows, Apply(s, step))
  {
  }

  lemma KeepingStep(windows: iset<int>, s: State, step: Step)
    requires Inv(windows, s) && Enabled(windows, s, step) && (step.Keep? || step.Erase?)
    ensures Inv(windows, Apply(s, step))
  {
  }

  /** What a purge that passes the drop leaves is not older than its cut, so nothing is left. */
  lemma DeletingStep(windows: iset<int>, s: State, step: Step)
    requires Inv(windows, s) && Enabled(windows, s, step) && step.Delete?
    ensures Inv(windows, Apply(s, step))
  {
    var s', cut := Apply(s, step), s.process.settings.Cut(step.now);
    CutIsMade(windows, s.process.settings, step.now);
    assert forall ns, r :: r in Records(s', ns) ==> r in Records(s, ns);
    if step.ok && Passed(s.process.purgers[step.ns], cut) {
      forall r | r in Records(s, step.ns) ensures r.time < cut {
        assert PassedWith(windows, r.time, s.process.purgers[step.ns].value);
      }
    }
  }

  lemma ForgettingStep(windows: iset<int>, s: State, step: Step)
    requires Inv(windows, s) && Enabled(windows, s, step) && (step.Forget? || step.Stop?)
    ensures Inv(windows, Apply(s, step))
  {
  }

  lemma InvStep(windows: iset<int>, s: State, step: Step)
    requires Inv(windows, s) && Enabled(windows, s, step) && KeptBefore(windows, s, step)
    ensures Inv(windows, Apply(s, step))
  {
    if !s.process.Serving? {
      StartingStep(windows, s, step);
    } else if step.Forget? || step.Stop? {
      ForgettingStep(windows, s, step);
    } else if step.Delete? {
      DeletingStep(windows, s, step);
    } else {
      KeepingStep(windows, s, step);
    }
  }

  /** Every first drop from step `from` on meets its condition. */
  ghost predicate DropsClear(windows: iset<int>, states: seq<State>, steps: seq<Step>, from: nat)
    requires |states| == |steps| + 1
  {
    forall i {:trigger steps[i]} :: from <= i < |steps| ==> KeptBefore(windows, states[i], steps[i])
  }

  lemma {:induction false} TraceInv(windows: iset<int>, states: seq<State>, steps: seq<Step>, n: nat)
    requires Trace(windows, states, steps) && n < |states| && Inv(windows, states[0]) && DropsClear(windows, states, steps, 0)
    ensures Inv(windows, states[n])
  {
    if n > 0 {
      TraceInv(windows, states, steps, n - 1);
      var step := steps[n - 1];
      InvStep(windows, states[n - 1], step);
    }
  }

  /** ADR 0023 section 5: over any sequence of starts with changing settings, keeps, purges, failed saves
      and crashes, a namespace leaves the file, and the running process's record and purges, only once it
      is empty. */
  lemma HeldNamespacesAreRecorded(windows: iset<int>, states: seq<State>, steps: seq<Step>, n: nat)
    requires Trace(windows, states, steps) && n < |states| && states[0] == FIRST && DropsClear(windows, states, steps, 0)
    ensures forall ns :: Records(states[n], ns) != {} ==>
      ns in states[n].file && (states[n].process.Serving? ==> ns in states[n].process.dropped && ns in states[n].process.purgers)
    ensures n < |steps| && steps[n].Forget? ==> Records(states[n], states[n].process.forgetting.value) == {}
  {
    TraceInv(windows, states, steps, n);
    if n < |steps| {
      var step := steps[n];
      assert Next(windows, states[n], step, states[n + 1]);
    }
  }

  // ---------- The condition is exact ----------

  /** A run that begins with `first` and whose later first drops meet their condition. */
  ghost predicate Runs(windows: iset<int>, s: State, first: Step, states: seq<State>, steps: seq<Step>) {
    Trace(windows, states, steps) && states[0] == s && steps != [] && steps[0] == first && DropsClear(windows, states, steps, 1)
  }

  /** Whatever follows `first`, every namespace that holds a record stays in the file. */
  ghost predicate StaysRecorded(windows: iset<int>, s: State, first: Step) {
    forall states: seq<State>, steps: seq<Step> ::
      Runs(windows, s, first, states, steps) ==> Covered(states[|steps|], states[|steps|].file)
  }

  lemma Begins(windows: iset<int>, s: State, first: Step) returns (states: seq<State>, steps: seq<Step>)
    requires Enabled(windows, s, first)
    ensures Runs(windows, s, first, states, steps) && states[|steps|] == Apply(s, first)
  {
    states, steps := [s, Apply(s, first)], [first];
  }

  lemma Extend(windows: iset<int>, s: State, first: Step, states: seq<State>, steps: seq<Step>, step: Step)
    returns (states': seq<State>, steps': seq<Step>)
    requires Runs(windows, s, first, states, steps)
    requires Enabled(windows, states[|steps|], step) && KeptBefore(windows, states[|steps|], step)
    ensures Runs(windows, s, first, states', steps') && states'[|steps'|] == Apply(states[|steps|], step)
  {
    states', steps' := states + [Apply(states[|steps|], step)], steps + [step];
    forall i | 0 <= i < |steps'| ensures Next(windows, states'[i], steps'[i], states'[i + 1]) && (1 <= i ==> KeptBefore(windows, states'[i], steps'[i])) {
      if i < |steps| {
        assert steps[i] == steps'[i];
      }
    }
  }

  lemma {:induction false} After(records: set<Kept>) returns (t: int)
    ensures forall r :: r in records ==> r.time < t
    decreases |records|
  {
    t := 0;
    if records != {} {
      var r :| r in records;
      var u := After(records - {r});
      t := if r.time < u then u else r.time + 1;
      forall x | x in records ensures x.time < t {
        assert x == r || x in records - {r};
      }
    }
  }

  /** Some time is after everything kept. */
  lemma {:induction false} AfterAll(stores: map<string, set<Kept>>) returns (t: int)
    ensures forall ns, r :: ns in stores && r in stores[ns] ==> r.time < t
    decreases |stores|
  {
    t := 0;
    if stores != map[] {
      var ns :| ns in stores;
      var rest := stores - {ns};
      assert stores.Keys == rest.Keys + {ns};
      assert |stores.Keys| == |rest.Keys| + 1;
      var u := AfterAll(rest);
      var v := After(stores[ns]);
      t := if u < v then v else u;
      forall n, r | n in stores && r in stores[n] ensures r.time < t {
        assert n == ns || n in rest;
      }
    }
  }

  /** Starting over the file, with `ns` dropped at `drop`. */
  ghost predicate StartingOver(s: State, settings: Settings, ns: string, drop: int) {
    && s.process.Starting? && s.process.settings == settings && s.process.dropped == s.file
    && ns in s.file && s.file[ns] == Some(drop)
  }

  /** A start can drop everything left, late enough to meet the condition. */
  lemma {:induction false} DropRest(windows: iset<int>, s: State, first: Step, states: seq<State>, steps: seq<Step>,
                                    settings: Settings, ns: string, drop: int, todo: set<string>, stores: map<string, set<Kept>>, late: int)
    returns (states': seq<State>, steps': seq<Step>)
    requires Runs(windows, s, first, states, steps)
    requires StartingOver(states[|steps|], settings, ns, drop) && states[|steps|].process.todo == todo
    requires states[|steps|].stores == stores && forall n, r :: n in stores && r in stores[n] ==> r.time < late
    ensures Runs(windows, s, first, states', steps')
    ensures StartingOver(states'[|steps'|], settings, ns, drop) && states'[|steps'|].process.todo == {}
    ensures states'[|steps'|].stores == stores
    decreases |todo|
  {
    states', steps' := states, steps;
    if n :| n in todo {
      states', steps' := Extend(windows, s, first, states', steps', DropNext(n, late, Saved));
      states', steps' := DropRest(windows, s, first, states', steps', settings, ns, drop, todo - {n}, stores, late);
    }
  }

  /** After a restart a purge can cut anywhere between the drop and a record, and forget the namespace. */
  lemma ForgetsHeld(windows: iset<int>, s: State, ns: string, now: int, r: Kept, c: int) returns (states: seq<State>, steps: seq<Step>)
    requires Inv(windows, s) && Enabled(windows, s, DropNext(ns, now, Saved)) && DroppedAt(s.process.dropped, ns) == None
    requires r in Records(s, ns) && now <= c <= r.time && MayCut(windows, c)
    ensures Runs(windows, s, DropNext(ns, now, Saved), states, steps)
    ensures r in Records(states[|steps|], ns) && ns !in states[|steps|].file
  {
    var first, configured := DropNext(ns, now, Saved), s.process.settings.configured;
    var settings, at := CutIsReached(windows, c, configured);
    var late := AfterAll(s.stores);
    states, steps := Begins(windows, s, first);
    states, steps := Extend(windows, s, first, states, steps, Stop);
    states, steps := Extend(windows, s, first, states, steps, Begin(settings, Saved));
    states, steps := DropRest(windows, s, first, states, steps, settings, ns, now, states[|steps|].process.todo, s.stores, late);
    states, steps := Extend(windows, s, first, states, steps, Serve);
    states, steps := Extend(windows, s, first, states, steps, Delete(ns, at, true, {}));
    states, steps := Extend(windows, s, first, states, steps, Forget(Saved));
  }

  /** At a first drop, held namespaces stay recorded whatever follows if and only if every cut that passes
      the drop passes everything the namespace holds. */
  lemma RecordedIffClear(windows: iset<int>, s: State, ns: string, now: int)
    requires Inv(windows, s) && Enabled(windows, s, DropNext(ns, now, Saved)) && DroppedAt(s.process.dropped, ns) == None
    ensures StaysRecorded(windows, s, DropNext(ns, now, Saved)) <==> ClearToDrop(windows, s, ns, now)
  {
    var first := DropNext(ns, now, Saved);
    if ClearToDrop(windows, s, ns, now) {
      forall states: seq<State>, steps: seq<Step> | Runs(windows, s, first, states, steps)
        ensures Covered(states[|steps|], states[|steps|].file)
      {
        TraceInv(windows, states, steps, |steps|);
      }
    } else {
      var r :| r in Records(s, ns) && !PassedWith(windows, r.time, now);
      var c :| now <= c <= r.time && MayCut(windows, c);
      var states, steps := ForgetsHeld(windows, s, ns, now, r, c);
      assert Runs(windows, s, first, states, steps) && !Covered(states[|steps|], states[|steps|].file);
    }
  }

  /** The condition can fail: a run in which every first drop meets it reaches one that does not, of a
      record kept at the very moment of the drop on a boundary of the window. */
  lemma LossIsReached(windows: iset<int>, w: int, a: string, b: string) returns (states: seq<State>, steps: seq<Step>)
    requires w in windows && w >= MIN_WINDOW && a != b
    ensures Trace(windows, states, steps) && states[0] == FIRST && DropsClear(windows, states, steps, 0)
    ensures Inv(windows, states[|steps|]) && Enabled(windows, states[|steps|], DropNext(a, w, Saved))
    ensures !StaysRecorded(windows, states[|steps|], DropNext(a, w, Saved))
  {
    var r := Kept(0, "", FromUser, w);
    Retention.MultipleRules(1, w);
    assert MayCut(windows, w) && !PassedWith(windows, w, w);
    var first := Begin(Settings({a}, w, w), Saved);
    states, steps := Begins(windows, FIRST, first);
    assert states[|steps|].process.todo == {};
    states, steps := Extend(windows, FIRST, first, states, steps, Serve);
    states, steps := Extend(windows, FIRST, first, states, steps, Keep(a, r));
    states, steps := Extend(windows, FIRST, first, states, steps, Stop);
    states, steps := Extend(windows, FIRST, first, states, steps, Begin(Settings({b}, w, w), Saved));
    assert KeptBefore(windows, FIRST, first);
    TraceInv(windows, states, steps, |steps|);
    RecordedIffClear(windows, states[|steps|], a, w);
    assert r in Records(states[|steps|], a);
  }
}
