/** The global spend ceiling (internal/budget) and the metered model call (internal/runtime metered).
    Times and periods are nanoseconds. */
module Budget {
  import opened Options

  /** The meter's state, as it is also saved. */
  datatype Period = Period(start: int, spent: int)

  function Elapsed(p: Period, period: int, now: int): bool {
    now - p.start >= period
  }

  function Rolled(p: Period, period: int, now: int): Period {
    if Elapsed(p, period, now) then Period(now, 0) else p
  }

  function Counted(tokens: int): nat {
    if tokens < 0 then 0 else tokens
  }

  function Recorded(p: Period, period: int, now: int, tokens: int): Period {
    var r := Rolled(p, period, now);
    r.(spent := r.spent + Counted(tokens))
  }

  /** What the store holds after a roll: the reset is saved only if there was one, and best-effort. */
  function SavedRoll(saved: Option<Period>, p: Period, period: int, now: int, ok: bool): Option<Period> {
    if Elapsed(p, period, now) && ok then Some(Rolled(p, period, now)) else saved
  }

  // ---------- The meter ----------

  class Store {
    var saved: Option<Period>

    constructor ()
      ensures saved == None
    {
      saved := None;
    }

    method Save(p: Period, works: bool)
      modifies this
      ensures saved == if works then Some(p) else old(saved)
    {
      if works {
        saved := Some(p);
      }
    }
  }

  class Meter {
    const ceiling: int
    const period: int
    const store: Store
    var start: int
    var spent: int

    function State(): Period
      reads this
    {
      Period(start, spent)
    }

    constructor (ceiling: int, period: int, store: Store, loaded: Option<Period>, now: int)
      ensures this.ceiling == ceiling && this.period == period && this.store == store
      ensures State() == loaded.GetOr(Period(now, 0))
    {
      this.ceiling, this.period, this.store := ceiling, period, store;
      start, spent := loaded.GetOr(Period(now, 0)).start, loaded.GetOr(Period(now, 0)).spent;
    }

    /** A meter needs a ceiling, a period and a store that can be read. */
    static method New(ceiling: int, period: int, store: Store, loads: bool, now: int) returns (m: Option<Meter>)
      ensures m.Some? <==> ceiling > 0 && period > 0 && loads
      ensures m.Some? ==>
        && fresh(m.value) && m.value.ceiling == ceiling && m.value.period == period && m.value.store == store
        && m.value.State() == store.saved.GetOr(Period(now, 0))
    {
      if ceiling <= 0 || period <= 0 || !loads {
        return None;
      }
      var meter := new Meter(ceiling, period, store, store.saved, now);
      m := Some(meter);
    }

    method Roll(now: int, saves: bool)
      modifies this, store
      ensures State() == Rolled(old(State()), period, now)
      ensures store.saved == SavedRoll(old(store.saved), old(State()), period, now, saves)
      ensures now - old(start) >= period ==>
        start == now && spent == 0 && store.saved == if saves then Some(Period(now, 0)) else old(store.saved)
      ensures now - old(start) < period ==> start == old(start) && spent == old(spent) && store.saved == old(store.saved)
    {
      if now - start < period {
        return;
      }
      start, spent := now, 0;
      store.Save(Period(start, spent), saves);
    }

    method Allow(now: int, saves: bool) returns (ok: bool)
      modifies this, store
      ensures State() == Rolled(old(State()), period, now) && ok == (spent < ceiling)
      ensures store.saved == SavedRoll(old(store.saved), old(State()), period, now, saves)
    {
      Roll(now, saves);
      ok := spent < ceiling;
    }

    method Record(tokens: int, now: int, rollSaves: bool, saves: bool)
      modifies this, store
      ensures State() == Recorded(old(State()), period, now, tokens)
      ensures store.saved == if saves then Some(State()) else SavedRoll(old(store.saved), old(State()), period, now, rollSaves)
      ensures spent == (if now - old(start) >= period then 0 else old(spent)) + if tokens > 0 then tokens else 0
    {
      var used := tokens;
      if used < 0 {
        used := 0;
      }
      Roll(now, rollSaves);
      spent := spent + used;
      store.Save(Period(start, spent), saves);
    }

    method Remaining(now: int, saves: bool) returns (left: nat)
      modifies this, store
      ensures State() == Rolled(old(State()), period, now)
      ensures store.saved == SavedRoll(old(store.saved), old(State()), period, now, saves)
      ensures left > 0 <==> spent < ceiling
      ensures spent < ceiling ==> spent + left == ceiling
    {
      Roll(now, saves);
      var r := ceiling - spent;
      left := if r > 0 then r else 0;
    }
  }

  /** What the model returns: an error, or a reply with its usage when it reports one. */
  datatype Reply = Failed | Answered(usage: Option<(int, int)>)

  datatype ChatResult = OverBudget | ModelError | Replied

  /** The input and the output tokens of a reply, and none where it reports none. */
  function Used(usage: Option<(int, int)>): (tokens: int)
    ensures usage == None ==> tokens == 0
    ensures forall input, output :: usage == Some((input, output)) ==> tokens == input + output
  {
    if usage.Some? then usage.value.0 + usage.value.1 else 0
  }

  /** A metered call with nothing else in flight: refused without a call, or recorded after it. While the
      period lasts, a reply adds its input and its output tokens to what is spent. */
  method Chat(meter: Meter, reply: Reply, before: int, after: int, saves: bool) returns (r: ChatResult)
    modifies meter, meter.store
    ensures var renewed := before - old(meter.start) >= meter.period;
      var start, carried := if renewed then before else old(meter.start), if renewed then 0 else old(meter.spent);
      && (r == OverBudget <==> carried >= meter.ceiling)
      && (r == ModelError <==> carried < meter.ceiling && reply == Failed)
      && (r != Replied ==> meter.spent == carried)
      && (r == Replied && after - start < meter.period ==>
           forall input: nat, output: nat :: reply.usage == Some((input, output)) ==> meter.spent == carried + (input + output))
      && (r == Replied && after - start < meter.period && reply.usage == None ==> meter.spent == carried)
    ensures var rolled := Rolled(old(meter.State()), meter.period, before);
      && (r == OverBudget <==> rolled.spent >= meter.ceiling)
      && (r == Replied <==> rolled.spent < meter.ceiling && reply.Answered?)
      && meter.State() == if r == Replied then Recorded(rolled, meter.period, after, Used(reply.usage)) else rolled
  {
    var ok := meter.Allow(before, saves);
    if !ok {
      return OverBudget;
    }
    if reply == Failed {
      return ModelError;
    }
    meter.Record(Used(reply.usage), after, saves, saves);
    r := Replied;
  }

  // ---------- Any number of calls in flight ----------

  /** At most `inFlight` calls at a time, each of at most `cost` tokens. */
  datatype Config = Config(ceiling: int, period: int, inFlight: nat, cost: nat)

  /** `ledger` is what was really recorded in each of the meter's periods, by its start. */
  datatype State = State(meter: Period, saved: Option<Period>, inFlight: nat, ledger: map<int, int>)

  datatype Step =
    | Begin(now: int, saves: bool)
    | End(tokens: int, now: int, rollSaves: bool, saves: bool)
    | Fail
    | Look(now: int, saves: bool)
    | Restart(now: int)

  function Ledger(ledger: map<int, int>, start: int): int {
    if start in ledger then ledger[start] else 0
  }

  function Bound(cfg: Config): int {
    cfg.ceiling - 1 + cfg.inFlight * cfg.cost
  }

  predicate Admitted(cfg: Config, s: State, now: int) {
    Rolled(s.meter, cfg.period, now).spent < cfg.ceiling
  }

  predicate Enabled(cfg: Config, s: State, step: Step) {
    match step
    case Begin(now, _) => Admitted(cfg, s, now) ==> s.inFlight < cfg.inFlight
    case End(tokens, _, _, _) => s.inFlight > 0 && tokens <= cfg.cost
    case Fail => s.inFlight > 0
    case _ => true
  }

  function Apply(cfg: Config, s: State, step: Step): State
    requires Enabled(cfg, s, step)
  {
    match step
    case Begin(now, saves) =>
      s.(meter := Rolled(s.meter, cfg.period, now), saved := SavedRoll(s.saved, s.meter, cfg.period, now, saves),
         inFlight := if Admitted(cfg, s, now) then s.inFlight + 1 else s.inFlight)
    case End(tokens, now, rollSaves, saves) =>
      var meter := Recorded(s.meter, cfg.period, now, tokens);
      State(meter, if saves then Some(meter) else SavedRoll(s.saved, s.meter, cfg.period, now, rollSaves),
            s.inFlight - 1, s.ledger[meter.start := Ledger(s.ledger, meter.start) + Counted(tokens)])
    case Fail => s.(inFlight := s.inFlight - 1)
    case Look(now, saves) =>
      s.(meter := Rolled(s.meter, cfg.period, now), saved := SavedRoll(s.saved, s.meter, cfg.period, now, saves))
    case Restart(now) => s.(meter := s.saved.GetOr(Period(now, 0)), inFlight := 0)
  }

  predicate Saves(step: Step) {
    match step
    case Begin(_, saves) => saves
    case End(_, _, rollSaves, saves) => rollSaves && saves
    case Look(_, saves) => saves
    case _ => true
  }

  function Start(now: int): State {
    State(Period(now, 0), None, 0, map[])
  }

  ghost predicate Trace(cfg: Config, states: seq<State>, steps: seq<Step>) {
    && |states| == |steps| + 1
    && forall i {:trigger steps[i]} :: 0 <= i < |steps| ==> Enabled(cfg, states[i], steps[i]) && states[i + 1] == Apply(cfg, states[i], steps[i])
  }

  /** A meter at `m` counts all that its period has recorded, or admits nothing more in it, and no period
      it could still start has recorded anything. */
  ghost predicate Accounts(cfg: Config, m: Period, ledger: map<int, int>) {
    && (Ledger(ledger, m.start) <= m.spent || cfg.ceiling <= m.spent)
    && forall p :: p in ledger && p - m.start >= cfg.period ==> ledger[p] == 0
  }

  /** A restart here loses no recorded spend that still counts. */
  ghost predicate Restorable(cfg: Config, s: State) {
    match s.saved
    case Some(m) => Accounts(cfg, m, s.ledger)
    case None => forall p :: p in s.ledger ==> s.ledger[p] == 0
  }

  ghost predicate Inv(cfg: Config, s: State) {
    && s.inFlight <= cfg.inFlight && Accounts(cfg, s.meter, s.ledger)
    && Ledger(s.ledger, s.meter.start) + s.inFlight * cfg.cost <= Bound(cfg)
    && (forall p :: p in s.ledger ==> 0 <= s.ledger[p] <= Bound(cfg))
  }

  lemma Products(a: nat, b: nat, m: nat)
    requires a <= b
    ensures 0 <= a * m <= b * m && (a + 1) * m == a * m + m
  {
  }

  /** A new period starts with nothing recorded yet. */
  lemma RollInv(cfg: Config, s: State, now: int, saved: Option<Period>)
    requires cfg.ceiling > 0 && cfg.period > 0 && Inv(cfg, s)
    ensures Inv(cfg, s.(meter := Rolled(s.meter, cfg.period, now), saved := saved))
  {
    Products(s.inFlight, cfg.inFlight, cfg.cost);
  }

  lemma BeginInv(cfg: Config, s: State, now: int, saves: bool)
    requires cfg.ceiling > 0 && cfg.period > 0 && Inv(cfg, s) && Enabled(cfg, s, Begin(now, saves))
    ensures Inv(cfg, Apply(cfg, s, Begin(now, saves)))
  {
    RollInv(cfg, s, now, SavedRoll(s.saved, s.meter, cfg.period, now, saves));
    if Admitted(cfg, s, now) {
      Products(s.inFlight + 1, cfg.inFlight, cfg.cost);
      Products(s.inFlight, s.inFlight, cfg.cost);
    }
  }

  lemma EndInv(cfg: Config, s: State, tokens: int, now: int, rollSaves: bool, saves: bool)
    requires cfg.ceiling > 0 && cfg.period > 0 && Inv(cfg, s) && Enabled(cfg, s, End(tokens, now, rollSaves, saves))
    ensures Inv(cfg, Apply(cfg, s, End(tokens, now, rollSaves, saves)))
  {
    RollInv(cfg, s, now, s.saved);
    Products(s.inFlight - 1, cfg.inFlight, cfg.cost);
  }

  /** Saves may fail at any step but a restart that would lose what was recorded. */
  lemma InvStep(cfg: Config, s: State, step: Step)
    requires cfg.ceiling > 0 && cfg.period > 0 && Inv(cfg, s) && Enabled(cfg, s, step)
    requires step.Restart? ==> Restorable(cfg, s)
    ensures Inv(cfg, Apply(cfg, s, step))
  {
    Products(0, cfg.inFlight, cfg.cost);
    match step
    case Begin(now, saves) => BeginInv(cfg, s, now, saves);
    case End(tokens, now, rollSaves, saves) => EndInv(cfg, s, tokens, now, rollSaves, saves);
    case Fail => Products(s.inFlight - 1, cfg.inFlight, cfg.cost);
    case Look(now, saves) => RollInv(cfg, s, now, SavedRoll(s.saved, s.meter, cfg.period, now, saves));
    case Restart(now) =>
  }

  /** Every restart of the run loses no recorded spend that still counts. */
  ghost predicate Restores(cfg: Config, states: seq<State>, steps: seq<Step>)
    requires |states| == |steps| + 1
  {
    forall i {:trigger steps[i]} :: 0 <= i < |steps| && steps[i].Restart? ==> Restorable(cfg, states[i])
  }

  lemma {:induction false} TraceInv(cfg: Config, states: seq<State>, steps: seq<Step>, n: nat)
    requires cfg.ceiling > 0 && cfg.period > 0 && Trace(cfg, states, steps) && n < |states|
    requires Inv(cfg, states[0]) && Restores(cfg, states, steps)
    ensures Inv(cfg, states[n])
  {
    if n > 0 {
      TraceInv(cfg, states, steps, n - 1);
      var step := steps[n - 1];
      InvStep(cfg, states[n - 1], step);
    }
  }

  lemma StartInv(cfg: Config, now: int)
    requires cfg.ceiling > 0 && cfg.period > 0
    ensures Inv(cfg, Start(now))
  {
    Products(0, cfg.inFlight, cfg.cost);
  }

  lemma BoundIsNatural(cfg: Config)
    requires cfg.ceiling > 0
    ensures 0 <= Bound(cfg)
  {
    Products(0, cfg.inFlight, cfg.cost);
  }

  /** ADR 0006: whatever the interleaving, the rolls and the failed saves, no period records more than the
      ceiling less one and the calls in flight, when no restart loses recorded spend that still counts. */
  lemma SpendIsBounded(cfg: Config, states: seq<State>, steps: seq<Step>, now: int, n: nat, p: int)
    requires cfg.ceiling > 0 && cfg.period > 0 && Trace(cfg, states, steps) && n < |states|
    requires states[0] == Start(now) && Restores(cfg, states, steps)
    ensures Ledger(states[n].ledger, p) <= cfg.ceiling - 1 + cfg.inFlight * cfg.cost
  {
    StartInv(cfg, now);
    TraceInv(cfg, states, steps, n);
    BoundIsNatural(cfg);
  }

  // ---------- Runs in which saves work ----------

  ghost predicate AllSave(steps: seq<Step>) {
    forall i :: 0 <= i < |steps| ==> Saves(steps[i])
  }

  lemma SavesRestorable(cfg: Config, s: State, step: Step)
    requires cfg.ceiling > 0 && cfg.period > 0 && Inv(cfg, s) && Restorable(cfg, s) && Enabled(cfg, s, step) && Saves(step)
    ensures Restorable(cfg, Apply(cfg, s, step))
  {
    InvStep(cfg, s, step);
  }

  /** When saves work, every state can be restarted from if the first one can. */
  lemma {:induction false} SavedRunRestores(cfg: Config, states: seq<State>, steps: seq<Step>, n: nat)
    requires cfg.ceiling > 0 && cfg.period > 0 && Trace(cfg, states, steps) && n < |states|
    requires Inv(cfg, states[0]) && Restorable(cfg, states[0]) && AllSave(steps)
    ensures Inv(cfg, states[n]) && Restorable(cfg, states[n])
  {
    if n > 0 {
      SavedRunRestores(cfg, states, steps, n - 1);
      var step := steps[n - 1];
      assert Saves(step);
      InvStep(cfg, states[n - 1], step);
      SavesRestorable(cfg, states[n - 1], step);
    }
  }

  /** The bound over every run in which every save works. */
  lemma SavedSpendIsBounded(cfg: Config, states: seq<State>, steps: seq<Step>, now: int, n: nat, p: int)
    requires cfg.ceiling > 0 && cfg.period > 0 && Trace(cfg, states, steps) && n < |states|
    requires states[0] == Start(now) && AllSave(steps)
    ensures Ledger(states[n].ledger, p) <= cfg.ceiling - 1 + cfg.inFlight * cfg.cost
  {
    StartInv(cfg, now);
    forall i | 0 <= i < |steps| && steps[i].Restart? ensures Restorable(cfg, states[i]) {
      SavedRunRestores(cfg, states, steps, i);
    }
    SpendIsBounded(cfg, states, steps, now, n, p);
  }

  // ---------- What the bound needs ----------

  lemma Extend(cfg: Config, states: seq<State>, steps: seq<Step>, step: Step) returns (states': seq<State>, steps': seq<Step>)
    requires Trace(cfg, states, steps) && Enabled(cfg, states[|steps|], step)
    ensures Trace(cfg, states', steps') && states'[0] == states[0] && steps' == steps + [step]
    ensures states'[|steps'|] == Apply(cfg, states[|steps|], step)
  {
    states', steps' := states + [Apply(cfg, states[|steps|], step)], steps + [step];
    forall i | 0 <= i < |steps'| ensures Enabled(cfg, states'[i], steps'[i]) && states'[i + 1] == Apply(cfg, states'[i], steps'[i]) {
      if i < |steps| {
        assert steps[i] == steps'[i];
      }
    }
  }

  /** A run from `s` with working saves to a meter at `spent` in the period of `now`, which has recorded
      `recorded`. */
  ghost predicate Leads(cfg: Config, s: State, states: seq<State>, steps: seq<Step>, now: int, spent: int, recorded: int, inFlight: nat) {
    && Trace(cfg, states, steps) && states[0] == s && AllSave(steps)
    && states[|steps|].meter == Period(now, spent) && states[|steps|].inFlight == inFlight
    && Ledger(states[|steps|].ledger, now) == recorded
  }

  /** One call of a token after another until one is left below the ceiling. */
  lemma {:induction false} CallInTurn(cfg: Config, s: State, states: seq<State>, steps: seq<Step>, now: int, spent: int, recorded: int)
    returns (states': seq<State>, steps': seq<Step>)
    requires cfg.period > 0 && cfg.inFlight > 0 && cfg.cost > 0 && spent < cfg.ceiling
    requires Leads(cfg, s, states, steps, now, spent, recorded, 0)
    ensures Leads(cfg, s, states', steps', now, cfg.ceiling - 1, recorded + (cfg.ceiling - 1 - spent), 0)
    decreases cfg.ceiling - spent
  {
    states', steps' := states, steps;
    if spent < cfg.ceiling - 1 {
      states', steps' := Extend(cfg, states', steps', Begin(now, true));
      states', steps' := Extend(cfg, states', steps', End(1, now, true, true));
      states', steps' := CallInTurn(cfg, s, states', steps', now, spent + 1, recorded + 1);
    }
  }

  lemma {:induction false} BeginAll(cfg: Config, s: State, states: seq<State>, steps: seq<Step>, now: int, recorded: int, n: nat)
    returns (states': seq<State>, steps': seq<Step>)
    requires cfg.period > 0 && n <= cfg.inFlight
    requires Leads(cfg, s, states, steps, now, cfg.ceiling - 1, recorded, cfg.inFlight - n)
    ensures Leads(cfg, s, states', steps', now, cfg.ceiling - 1, recorded, cfg.inFlight)
    decreases n
  {
    states', steps' := states, steps;
    if n > 0 {
      states', steps' := Extend(cfg, states', steps', Begin(now, true));
      states', steps' := BeginAll(cfg, s, states', steps', now, recorded, n - 1);
    }
  }

  lemma {:induction false} EndAll(cfg: Config, s: State, states: seq<State>, steps: seq<Step>, now: int, spent: int, recorded: int, n: nat)
    returns (states': seq<State>, steps': seq<Step>)
    requires cfg.period > 0 && Leads(cfg, s, states, steps, now, spent, recorded, n)
    ensures Leads(cfg, s, states', steps', now, spent + n * cfg.cost, recorded + n * cfg.cost, 0)
    decreases n
  {
    states', steps' := states, steps;
    if n > 0 {
      states', steps' := Extend(cfg, states', steps', End(cfg.cost, now, true, true));
      states', steps' := EndAll(cfg, s, states', steps', now, spent + cfg.cost, recorded + cfg.cost, n - 1);
      Products(n - 1, n, cfg.cost);
    }
  }

  /** A meter below the ceiling with nothing in flight can be driven to the bound, on top of what its
      period has recorded and it does not count. */
  lemma FillPeriod(cfg: Config, s: State, states: seq<State>, steps: seq<Step>, now: int, spent: int, recorded: int)
    returns (states': seq<State>, steps': seq<Step>)
    requires cfg.period > 0 && cfg.inFlight > 0 && cfg.cost > 0 && spent < cfg.ceiling
    requires Leads(cfg, s, states, steps, now, spent, recorded, 0)
    ensures Leads(cfg, s, states', steps', now, Bound(cfg), Bound(cfg) + (recorded - spent), 0)
  {
    states', steps' := CallInTurn(cfg, s, states, steps, now, spent, recorded);
    var filled := recorded + (cfg.ceiling - 1 - spent);
    states', steps' := BeginAll(cfg, s, states', steps', now, filled, cfg.inFlight);
    states', steps' := EndAll(cfg, s, states', steps', now, cfg.ceiling - 1, filled, cfg.inFlight);
  }

  /** Some run with every save working records exactly the bound in one period. */
  lemma BoundIsReached(cfg: Config, now: int) returns (states: seq<State>, steps: seq<Step>)
    requires cfg.ceiling > 0 && cfg.period > 0 && cfg.inFlight > 0 && cfg.cost > 0
    ensures Trace(cfg, states, steps) && states[0] == Start(now) && AllSave(steps)
    ensures Ledger(states[|steps|].ledger, now) == cfg.ceiling - 1 + cfg.inFlight * cfg.cost
  {
    states, steps := FillPeriod(cfg, Start(now), [Start(now)], [], now, 0, 0);
  }

  /** Whatever runs from `s` while saves work, no period records more than the bound. */
  ghost predicate AlwaysBounded(cfg: Config, s: State) {
    forall states: seq<State>, steps: seq<Step>, p ::
      Trace(cfg, states, steps) && states[0] == s && AllSave(steps) ==> Ledger(states[|steps|].ledger, p) <= Bound(cfg)
  }

  /** A restart that loses recorded spend can be followed by more of it than the bound. */
  lemma LostSpendIsSpentAgain(cfg: Config, s: State) returns (states: seq<State>, steps: seq<Step>, p: int)
    requires cfg.ceiling > 0 && cfg.period > 0 && cfg.inFlight > 0 && cfg.cost > 0 && Inv(cfg, s) && !Restorable(cfg, s)
    ensures Trace(cfg, states, steps) && states[0] == s && AllSave(steps) && Ledger(states[|steps|].ledger, p) > Bound(cfg)
  {
    states, steps := [s], [];
    if s.saved.None? {
      p :| p in s.ledger && s.ledger[p] != 0;
      states, steps := Extend(cfg, states, steps, Restart(p));
      states, steps := FillPeriod(cfg, s, states, steps, p, 0, s.ledger[p]);
    } else {
      var m := s.saved.value;
      states, steps := Extend(cfg, states, steps, Restart(0));
      if m.spent < cfg.ceiling && Ledger(s.ledger, m.start) > m.spent {
        p := m.start;
        states, steps := FillPeriod(cfg, s, states, steps, p, m.spent, Ledger(s.ledger, p));
      } else {
        p :| p in s.ledger && p - m.start >= cfg.period && s.ledger[p] != 0;
        states, steps := Extend(cfg, states, steps, Look(p, true));
        states, steps := FillPeriod(cfg, s, states, steps, p, 0, s.ledger[p]);
      }
    }
  }

  /** So the condition on restarts is exact: from a state such a run reaches, the bound goes on holding
      while saves work if and only if a restart there would lose no recorded spend that still counts. */
  lemma BoundedIffRestorable(cfg: Config, s: State)
    requires cfg.ceiling > 0 && cfg.period > 0 && cfg.inFlight > 0 && cfg.cost > 0 && Inv(cfg, s)
    ensures AlwaysBounded(cfg, s) <==> Restorable(cfg, s)
  {
    if Restorable(cfg, s) {
      forall states: seq<State>, steps: seq<Step>, p | Trace(cfg, states, steps) && states[0] == s && AllSave(steps)
        ensures Ledger(states[|steps|].ledger, p) <= Bound(cfg)
      {
        SavedRunRestores(cfg, states, steps, |steps|);
        BoundIsNatural(cfg);
      }
    } else {
      var states, steps, p := LostSpendIsSpentAgain(cfg, s);
    }
  }

  /** When saves fail, restarts forget what was spent: one call at a time records any amount in one period. */
  lemma {:induction false} UnsavedSpendIsUnbounded(cfg: Config, now: int, n: nat) returns (states: seq<State>, steps: seq<Step>)
    requires cfg.ceiling > 0 && cfg.period > 0 && cfg.inFlight > 0 && cfg.cost > 0
    ensures Trace(cfg, states, steps) && states[0] == Start(now)
    ensures Ledger(states[|steps|].ledger, now) == n * cfg.cost
    ensures states[|steps|].meter == Period(now, 0) && states[|steps|].saved == None && states[|steps|].inFlight == 0
  {
    if n == 0 {
      states, steps := [Start(now)], [];
    } else {
      states, steps := UnsavedSpendIsUnbounded(cfg, now, n - 1);
      states, steps := Extend(cfg, states, steps, Begin(now, false));
      states, steps := Extend(cfg, states, steps, End(cfg.cost, now, false, false));
      states, steps := Extend(cfg, states, steps, Restart(now));
      Products(n - 1, n, cfg.cost);
    }
  }
}
