/** Consent, withdrawal and erasure as a protocol (internal/runtime handler, consent and erase;
    internal/core long-term memory). Group turns and withdrawals of any number of users run
    concurrently; each step below is one atomic action of one of them, and a run interleaves
    the steps in any way. */
module Withdrawal {
  import opened Options
  import opened LongMemory
  import Acl
  import Chats = Conversation

  /** What a start fixes: the instance's namespace, the namespaces given to group chats, the
      namespaces with an open store, the buffer's bound, the default tier, and which chats are groups. */
  datatype Config = Config(main: string, groups: map<string, string>, open: set<string>,
                           retain: int, defTier: string, group: string -> bool)
  {
    function StoreFor(chat: string): (ns: string)
      ensures ns in Configured() && (chat in groups ==> ns == groups[chat]) && (chat !in groups ==> ns == main)
    {
      if chat in groups then groups[chat] else main
    }

    function Configured(): set<string> {
      {main} + groups.Values
    }
  }

  type Stores = map<string, set<Kept>>

  /** Where a group turn's handler is. `Checked` lies between the gate's Get and its Put; `Keeping`
      holds the memory's read lock; `Done` says whether its last read of consent failed. */
  datatype Phase =
    | Counted
    | Checked(put: Acl.Record)
    | Admitted(serve: bool)
    | Answering
    | Keeping(appended: nat)
    | Replying(answered: bool)
    | Settling
    | Purging
    | Done(readFailed: bool)

  datatype Handler = Handler(user: string, chat: string, directed: bool, count: nat, phase: Phase)

  datatype TurnAct =
    | GateGet(now: int, ok: bool)
    | GatePut(ok: bool)
    | Buffer(turn: Chats.Turn)
    | NotKept(answered: bool)
    | KeepBegin
    | KeepRecord(ok: bool, time: int)
    | KeepEnd
    | Reply(botTurn: Option<Chats.Turn>)
    | ReadConsent(ok: bool)
    | PurgeTurns

  /** Where a withdrawal is. `Deleting` with nothing left to do is one that has returned. */
  datatype Progress =
    | Refused
    | TurnedOff
    | BufferPurged
    | CountedUp(count: nat)
    | Deleting(count: nat, todo: set<string>, failed: set<string>)

  datatype Withdrawing = Withdrawing(user: string, progress: Progress)

  datatype WithdrawAct =
    | PurgeBuffer
    | CountUp
    | ListNamespaces
    | Delete(ns: string, ok: bool, lost: set<Kept>)

  /** The shared state, and every turn and withdrawal of this start. `earlier` names the turns of
      earlier starts, whose records outlive them. */
  datatype State = State(
    acl: map<string, Acl.Record>,
    withdrawn: map<string, nat>,
    convos: Chats.Convos,
    stores: Stores,
    recorded: set<string>,
    earlier: set<nat>,
    handlers: map<nat, Handler>,
    withdrawals: map<nat, Withdrawing>)

  datatype Step =
    | Arrive(h: nat, user: string, chat: string, directed: bool)
    | Turn(h: nat, turnAct: TurnAct)
    | TurnOff(w: nat, user: string, ok: bool)
    | Withdraw(w: nat, withdrawAct: WithdrawAct)
    | AdminTurn(chat: string, turn: Chats.Turn)
    | Grant(user: string)
    | SetTier(user: string, tier: string)
    | Retire(ns: string, gone: set<Kept>)
    | Forget(ns: string)
    | Restart

  // ---------- Reading a state ----------

  function ConsentOf(acl: map<string, Acl.Record>, user: string): Acl.Consent {
    Acl.Lookup(acl, user).consent
  }

  function Records(stores: Stores, ns: string): set<Kept> {
    if ns in stores then stores[ns] else {}
  }

  predicate Stored(stores: Stores, ns: string, r: Kept) {
    r in Records(stores, ns)
  }

  /** The stores with `ns` holding `records`. */
  function Store(stores: Stores, ns: string, records: set<Kept>): (r: Stores)
    ensures forall n, x :: Stored(r, n, x) <==> if n == ns then x in records else Stored(stores, n, x)
  {
    stores[ns := records]
  }

  // ---------- A step of a turn ----------

  predicate TurnEnabled(x: Handler, act: TurnAct) {
    match act
    case GateGet(_, _) => x.phase.Counted?
    case GatePut(_) => x.phase.Checked?
    case Buffer(turn) => x.phase.Admitted? && turn.speakerId == x.user
    case NotKept(_) => x.phase.Answering?
    case KeepBegin => x.phase.Answering? && x.user != "" && x.chat != ""
    case KeepRecord(_, _) => x.phase.Keeping? && x.phase.appended < 2
    case KeepEnd => x.phase == Keeping(2)
    case Reply(botTurn) => x.phase.Replying? && (botTurn.Some? ==> x.phase.answered && botTurn.value.speakerId == "")
    case ReadConsent(_) => x.phase.Settling?
    case PurgeTurns => x.phase.Purging?
  }

  function AfterGet(verdict: Acl.Verdict): Phase {
    match verdict
    case Quiet => Done(false)
    case Unasked => Done(false)
    case Ambient => Admitted(false)
    case Throttled => Admitted(false)
    case Admit(put) => Checked(put)
  }

  function TurnPhase(cfg: Config, s: State, x: Handler, act: TurnAct): Phase
    requires TurnEnabled(x, act)
  {
    match act
    case GateGet(now, ok) =>
      if ok then AfterGet(Acl.Judge(Acl.Lookup(s.acl, x.user), x.directed, cfg.defTier, now)) else Done(false)
    case GatePut(ok) => if ok then Admitted(true) else Done(false)
    case Buffer(_) => if x.phase.serve then Answering else Settling
    case NotKept(answered) => Replying(answered)
    case KeepBegin => if Withdrawals(s.withdrawn, x.user) == x.count then Keeping(0) else Replying(true)
    case KeepRecord(ok, _) => Keeping(if ok then x.phase.appended + 1 else 2)
    case KeepEnd => Replying(true)
    case Reply(_) => Settling
    case ReadConsent(ok) =>
      if !ok then Done(true) else if ConsentOf(s.acl, x.user) == Acl.Granted then Done(false) else Purging
    case PurgeTurns => Done(false)
  }

  function TurnAcl(acl: map<string, Acl.Record>, x: Handler, act: TurnAct): map<string, Acl.Record>
    requires TurnEnabled(x, act)
  {
    if act.GatePut? && act.ok then acl[x.phase.put.user := x.phase.put] else acl
  }

  function TurnConvos(cfg: Config, convos: Chats.Convos, x: Handler, act: TurnAct): Chats.Convos {
    match act
    case Buffer(turn) => Chats.Appended(convos, cfg.retain, x.chat, turn)
    case Reply(Some(botTurn)) => Chats.Appended(convos, cfg.retain, x.chat, botTurn)
    case PurgeTurns => Chats.UserPurged(convos, cfg.retain, x.user)
    case _ => convos
  }

  /** The record an append keeps: the message first, then the answer. */
  function Record(h: nat, x: Handler, time: int): Kept
    requires x.phase.Keeping?
  {
    Kept(h, x.user, if x.phase.appended == 0 then FromUser else FromModel, time)
  }

  function TurnStores(cfg: Config, stores: Stores, h: nat, x: Handler, act: TurnAct): Stores
    requires TurnEnabled(x, act)
  {
    if act.KeepRecord? && act.ok then
      var ns := cfg.StoreFor(x.chat);
      Store(stores, ns, Records(stores, ns) + {Record(h, x, act.time)})
    else stores
  }

  // ---------- A step of a withdrawal ----------

  ghost predicate ReadLocked(s: State) {
    exists h :: h in s.handlers && s.handlers[h].phase.Keeping?
  }

  /** The count's write lock waits for every keep under way. */
  ghost predicate WithdrawEnabled(s: State, p: Progress, act: WithdrawAct) {
    match act
    case PurgeBuffer => p.TurnedOff?
    case CountUp => p.BufferPurged? && !ReadLocked(s)
    case ListNamespaces => p.CountedUp?
    case Delete(ns, _, _) => p.Deleting? && ns in p.todo
  }

  ghost function WithdrawProgress(cfg: Config, s: State, x: Withdrawing, act: WithdrawAct): Progress
    requires WithdrawEnabled(s, x.progress, act)
  {
    match act
    case PurgeBuffer => BufferPurged
    case CountUp => CountedUp(Withdrawals(s.withdrawn, x.user) + 1)
    case ListNamespaces => Deleting(x.progress.count, s.recorded, {})
    case Delete(ns, ok, _) =>
      Deleting(x.progress.count, x.progress.todo - {ns},
               if ok && ns in cfg.open then x.progress.failed else x.progress.failed + {ns})
  }

  /** A failed delete may have removed some of the subject's records; a namespace with no store is untouched. */
  function WithdrawStores(cfg: Config, stores: Stores, user: string, act: WithdrawAct): Stores {
    if act.Delete? && act.ns in cfg.open then
      Store(stores, act.ns, Spared(Records(stores, act.ns), user, act.ok, act.lost))
    else stores
  }

  // ---------- One step ----------

  ghost predicate Enabled(cfg: Config, s: State, step: Step) {
    match step
    case Arrive(h, _, chat, _) => h !in s.handlers && h !in s.earlier && cfg.group(chat)
    case Turn(h, act) => h in s.handlers && TurnEnabled(s.handlers[h], act)
    case TurnOff(w, _, _) => w !in s.withdrawals
    case Withdraw(w, act) => w in s.withdrawals && WithdrawEnabled(s, s.withdrawals[w].progress, act)
    case AdminTurn(chat, _) => !cfg.group(chat)
    // Only a dropped namespace with nothing left in it is forgotten (see Namespaces).
    case Forget(ns) => ns !in cfg.Configured() && Records(s.stores, ns) == {}
    case _ => true
  }

  ghost function Apply(cfg: Config, s: State, step: Step): State
    requires Enabled(cfg, s, step)
  {
    match step
    case Arrive(h, user, chat, directed) =>
      s.(handlers := s.handlers[h := Handler(user, chat, directed, Withdrawals(s.withdrawn, user), Counted)])
    case Turn(h, act) =>
      var x := s.handlers[h];
      s.(handlers := s.handlers[h := x.(phase := TurnPhase(cfg, s, x, act))],
         acl := TurnAcl(s.acl, x, act),
         convos := TurnConvos(cfg, s.convos, x, act),
         stores := TurnStores(cfg, s.stores, h, x, act))
    case TurnOff(w, user, ok) =>
      s.(withdrawals := s.withdrawals[w := Withdrawing(user, if ok then TurnedOff else Refused)],
         acl := if ok then Acl.WithConsent(s.acl, user, Acl.Declined) else s.acl)
    case Withdraw(w, act) =>
      var x := s.withdrawals[w];
      s.(withdrawals := s.withdrawals[w := x.(progress := WithdrawProgress(cfg, s, x, act))],
         convos := if act.PurgeBuffer? then Chats.UserPurged(s.convos, cfg.retain, x.user) else s.convos,
         withdrawn := if act.CountUp? then CountedOnce(s.withdrawn, x.user) else s.withdrawn,
         stores := WithdrawStores(cfg, s.stores, x.user, act))
    case AdminTurn(chat, turn) => s.(convos := Chats.Appended(s.convos, cfg.retain, chat, turn))
    case Grant(user) => s.(acl := Acl.WithConsent(s.acl, user, Acl.Granted))
    case SetTier(user, tier) => s.(acl := s.acl[user := Acl.Lookup(s.acl, user).(tier := tier)])
    case Retire(ns, gone) => s.(stores := Store(s.stores, ns, Records(s.stores, ns) - gone))
    case Forget(ns) => s.(recorded := s.recorded - {ns})
    // Stores, the record of namespaces and the access store are durable; the rest is not.
    case Restart =>
      State(s.acl, map[], map[], s.stores, s.recorded + cfg.Configured(), s.earlier + s.handlers.Keys, map[], map[])
  }

  // ---------- Runs ----------

  ghost predicate Initial(cfg: Config, s: State) {
    && s.withdrawn == map[] && s.convos == map[] && s.handlers == map[] && s.withdrawals == map[]
    && (forall ns, r :: Stored(s.stores, ns, r) ==> ns in s.recorded && r.turn in s.earlier)
    && cfg.Configured() <= s.recorded
    && (forall u :: u in s.acl ==> s.acl[u].user == u)
  }

  ghost predicate Next(cfg: Config, s: State, step: Step, s': State) {
    Enabled(cfg, s, step) && s' == Apply(cfg, s, step)
  }

  ghost predicate Trace(cfg: Config, states: seq<State>, steps: seq<Step>) {
    && |states| == |steps| + 1
    && forall i {:trigger steps[i]} :: 0 <= i < |steps| ==> Next(cfg, states[i], steps[i], states[i + 1])
  }

  lemma StepAt(cfg: Config, states: seq<State>, steps: seq<Step>, i: nat)
    requires Trace(cfg, states, steps) && i < |steps|
    ensures Next(cfg, states[i], steps[i], states[i + 1])
  {
  }

  // ---------- Invariants of every reachable state ----------

  /** Access records are filed under their user, and a Put outstanding writes Granted back. */
  ghost predicate AccessInv(s: State) {
    && (forall u :: u in s.acl ==> s.acl[u].user == u)
    && (forall h :: h in s.handlers && s.handlers[h].phase.Checked? ==>
          s.handlers[h].phase.put.user == s.handlers[h].user && s.handlers[h].phase.put.consent == Acl.Granted)
  }

  /** Counts only grow; a keep under way has seen the current one. */
  ghost predicate CountInv(s: State) {
    && (forall h :: h in s.handlers ==> h !in s.earlier && s.handlers[h].count <= Withdrawals(s.withdrawn, s.handlers[h].user))
    && (forall h :: h in s.handlers && s.handlers[h].phase.Keeping? ==>
          s.handlers[h].phase.appended <= 2 && s.handlers[h].count == Withdrawals(s.withdrawn, s.handlers[h].user))
    && (forall w :: w in s.withdrawals && s.withdrawals[w].progress.CountedUp? ==>
          s.withdrawals[w].progress.count <= Withdrawals(s.withdrawn, s.withdrawals[w].user))
    && (forall w :: w in s.withdrawals && s.withdrawals[w].progress.Deleting? ==>
          s.withdrawals[w].progress.count <= Withdrawals(s.withdrawn, s.withdrawals[w].user))
  }

  /** Every record is in a recorded namespace, under the user of the turn that wrote it. */
  ghost predicate RecordInv(cfg: Config, s: State) {
    && cfg.Configured() <= s.recorded
    && (forall ns, r :: Stored(s.stores, ns, r) ==> ns in s.recorded && (r.turn in s.handlers || r.turn in s.earlier))
    && (forall ns, r :: Stored(s.stores, ns, r) && r.turn in s.handlers ==> s.handlers[r.turn].user == r.subject)
  }

  /** The turn that wrote `r` read a count below `count`, or ran before this start. */
  ghost predicate Old(s: State, r: Kept, count: nat) {
    r.turn in s.handlers ==> s.handlers[r.turn].count < count
  }

  /** While an erase runs, and after, what its user's older turns kept is only where it has not
      deleted yet, or failed to. */
  ghost predicate EraseInv(s: State) {
    forall w, ns, r ::
      (w in s.withdrawals && s.withdrawals[w].progress.Deleting? && Stored(s.stores, ns, r) &&
       r.subject == s.withdrawals[w].user && Old(s, r, s.withdrawals[w].progress.count)) ==>
        ns in s.withdrawals[w].progress.todo || ns in s.withdrawals[w].progress.failed
  }

  ghost predicate Inv(cfg: Config, s: State) {
    AccessInv(s) && CountInv(s) && RecordInv(cfg, s) && EraseInv(s)
  }

  lemma InitInv(cfg: Config, s: State)
    requires Initial(cfg, s)
    ensures Inv(cfg, s)
  {
  }

  // Counts and erasure, one kind of step at a time.

  lemma AccessStep(cfg: Config, s: State, step: Step)
    requires AccessInv(s) && Enabled(cfg, s, step)
    ensures AccessInv(Apply(cfg, s, step))
  {
  }

  lemma CountTurnStep(cfg: Config, s: State, h: nat, act: TurnAct)
    requires CountInv(s) && Enabled(cfg, s, Turn(h, act))
    ensures CountInv(Apply(cfg, s, Turn(h, act)))
  {
  }

  lemma CountOtherStep(cfg: Config, s: State, step: Step)
    requires CountInv(s) && Enabled(cfg, s, step) && !step.Turn?
    ensures CountInv(Apply(cfg, s, step))
  {
    if step.Withdraw? {
      CountWithdrawStep(cfg, s, step.w, step.withdrawAct);
    }
  }

  lemma CountWithdrawStep(cfg: Config, s: State, w: nat, act: WithdrawAct)
    requires CountInv(s) && Enabled(cfg, s, Withdraw(w, act))
    ensures CountInv(Apply(cfg, s, Withdraw(w, act)))
  {
  }

  lemma RecordTurnStep(cfg: Config, s: State, h: nat, act: TurnAct)
    requires CountInv(s) && RecordInv(cfg, s) && Enabled(cfg, s, Turn(h, act))
    ensures RecordInv(cfg, Apply(cfg, s, Turn(h, act)))
  {
    var s' := Apply(cfg, s, Turn(h, act));
    forall ns, r | Stored(s'.stores, ns, r)
      ensures ns in s.recorded && (r.turn in s.handlers || r.turn in s.earlier)
      ensures r.turn in s.handlers ==> s.handlers[r.turn].user == r.subject
    {
      assert Stored(s.stores, ns, r) || r.turn == h;
    }
  }

  lemma RecordOtherStep(cfg: Config, s: State, step: Step)
    requires CountInv(s) && RecordInv(cfg, s) && Enabled(cfg, s, step) && !step.Turn?
    ensures RecordInv(cfg, Apply(cfg, s, step))
  {
    var s' := Apply(cfg, s, step);
    forall ns, r | Stored(s'.stores, ns, r)
      ensures ns in s'.recorded && (r.turn in s'.handlers || r.turn in s'.earlier)
      ensures r.turn in s'.handlers ==> s'.handlers[r.turn].user == r.subject
    {
      assert Stored(s.stores, ns, r);
      assert r.turn in s.handlers || r.turn in s.earlier;
    }
  }

  lemma EraseTurnStep(cfg: Config, s: State, h: nat, act: TurnAct)
    requires CountInv(s) && RecordInv(cfg, s) && EraseInv(s) && Enabled(cfg, s, Turn(h, act))
    ensures EraseInv(Apply(cfg, s, Turn(h, act)))
  {
  }

  lemma EraseOtherStep(cfg: Config, s: State, step: Step)
    requires CountInv(s) && RecordInv(cfg, s) && EraseInv(s) && Enabled(cfg, s, step) && !step.Turn?
    ensures EraseInv(Apply(cfg, s, step))
  {
  }

  lemma InvStep(cfg: Config, s: State, step: Step)
    requires Inv(cfg, s) && Enabled(cfg, s, step)
    ensures Inv(cfg, Apply(cfg, s, step))
  {
    AccessStep(cfg, s, step);
    if step.Turn? {
      RecordTurnStep(cfg, s, step.h, step.turnAct);
      CountTurnStep(cfg, s, step.h, step.turnAct);
      EraseTurnStep(cfg, s, step.h, step.turnAct);
    } else {
      RecordOtherStep(cfg, s, step);
      CountOtherStep(cfg, s, step);
      EraseOtherStep(cfg, s, step);
    }
  }

  lemma {:induction false} TraceInv(cfg: Config, states: seq<State>, steps: seq<Step>, n: nat)
    requires Trace(cfg, states, steps) && Inv(cfg, states[0]) && n < |states|
    ensures Inv(cfg, states[n])
  {
    if n > 0 {
      TraceInv(cfg, states, steps, n - 1);
      InvStep(cfg, states[n - 1], steps[n - 1]);
    }
  }

  // ---------- An erase reaches every older turn ----------

  /** Turn `h` is one of `user`'s that read a count below `count`, or ran in an earlier start. */
  ghost predicate Predates(s: State, h: nat, user: string, count: nat) {
    h in s.earlier || (h in s.handlers && s.handlers[h].user == user && s.handlers[h].count < count)
  }

  /** Turn `h` has nothing of `user` kept outside `failed`, and can keep nothing more. */
  ghost predicate Silenced(s: State, h: nat, user: string, failed: set<string>) {
    && Predates(s, h, user, Withdrawals(s.withdrawn, user))
    && forall ns, r :: Stored(s.stores, ns, r) && r.subject == user && r.turn == h ==> ns in failed
  }

  lemma PredatesStep(cfg: Config, s: State, step: Step, h: nat, user: string, count: nat)
    requires CountInv(s) && Enabled(cfg, s, step) && Predates(s, h, user, count)
    ensures Predates(Apply(cfg, s, step), h, user, count)
  {
  }

  lemma SilencedStep(cfg: Config, s: State, step: Step, h: nat, user: string, failed: set<string>)
    requires Inv(cfg, s) && Enabled(cfg, s, step) && Silenced(s, h, user, failed)
    ensures Silenced(Apply(cfg, s, step), h, user, failed)
  {
    PredatesStep(cfg, s, step, h, user, Withdrawals(s.withdrawn, user));
  }

  /** Withdrawal `w` of `user` has counted up to `count`, and has not been lost in a restart. */
  ghost predicate Erasing(s: State, w: nat, user: string, count: nat) {
    && w in s.withdrawals && s.withdrawals[w].user == user
    && (s.withdrawals[w].progress == CountedUp(count) ||
        (s.withdrawals[w].progress.Deleting? && s.withdrawals[w].progress.count == count))
  }

  lemma ErasingStep(cfg: Config, s: State, step: Step, w: nat, user: string, count: nat)
    requires Enabled(cfg, s, step) && Erasing(s, w, user, count) && step != Restart
    ensures Erasing(Apply(cfg, s, step), w, user, count)
  {
  }

  lemma {:induction false} ArrivedBefore(cfg: Config, states: seq<State>, steps: seq<Step>, h: nat, user: string, i: nat, j: nat)
    requires Trace(cfg, states, steps) && Inv(cfg, states[0])
    requires i < j < |states| && steps[i].Arrive? && steps[i].h == h && steps[i].user == user
    ensures Predates(states[j], h, user, Withdrawals(states[j].withdrawn, user) + 1)
  {
    TraceInv(cfg, states, steps, j - 1);
    if i < j - 1 {
      ArrivedBefore(cfg, states, steps, h, user, i, j - 1);
      PredatesStep(cfg, states[j - 1], steps[j - 1], h, user, Withdrawals(states[j - 1].withdrawn, user) + 1);
    }
    TraceInv(cfg, states, steps, j);
  }

  lemma {:induction false} ErasingUntil(cfg: Config, states: seq<State>, steps: seq<Step>, h: nat, w: nat, user: string, j: nat, k: nat)
    requires Trace(cfg, states, steps) && Inv(cfg, states[0])
    requires j < k < |states| && steps[j] == Withdraw(w, CountUp) && states[j].withdrawals[w].user == user
    requires Predates(states[j], h, user, Withdrawals(states[j].withdrawn, user) + 1)
    requires forall m :: j <= m < k ==> steps[m] != Restart
    ensures var count := Withdrawals(states[j].withdrawn, user) + 1;
      Erasing(states[k], w, user, count) && Predates(states[k], h, user, count)
  {
    var count := Withdrawals(states[j].withdrawn, user) + 1;
    TraceInv(cfg, states, steps, k - 1);
    if j < k - 1 {
      ErasingUntil(cfg, states, steps, h, w, user, j, k - 1);
      ErasingStep(cfg, states[k - 1], steps[k - 1], w, user, count);
    }
    PredatesStep(cfg, states[k - 1], steps[k - 1], h, user, count);
  }

  lemma {:induction false} SilencedOnwards(cfg: Config, states: seq<State>, steps: seq<Step>, h: nat, user: string, failed: set<string>, k: nat, n: nat)
    requires Trace(cfg, states, steps) && Inv(cfg, states[0])
    requires k <= n < |states| && Silenced(states[k], h, user, failed)
    ensures Silenced(states[n], h, user, failed)
  {
    if k < n {
      SilencedOnwards(cfg, states, steps, h, user, failed, k, n - 1);
      TraceInv(cfg, states, steps, n - 1);
      StepAt(cfg, states, steps, n - 1);
      SilencedStep(cfg, states[n - 1], steps[n - 1], h, user, failed);
    }
  }

  /** ADR 0023 section 5, in every interleaving: turn `h` of `user` read its withdrawal count (step i)
      before withdrawal `w` counted up (step j); once that withdrawal's erase has returned (state k),
      nothing `h` keeps of `user` is in any namespace the erase did not report as failed, ever after,
      restarts included. With no failure that is every namespace. */
  lemma EraseOutlivesOlderTurns(cfg: Config, states: seq<State>, steps: seq<Step>, h: nat, w: nat, user: string, failed: set<string>,
                                i: nat, j: nat, k: nat, n: nat)
    requires Trace(cfg, states, steps) && Inv(cfg, states[0])
    requires i < j < k <= n < |states|
    requires steps[i].Arrive? && steps[i].h == h && steps[i].user == user
    requires steps[j] == Withdraw(w, CountUp) && states[j].withdrawals[w].user == user
    requires forall m :: j <= m < k ==> steps[m] != Restart
    requires w in states[k].withdrawals && states[k].withdrawals[w].progress.Deleting?
    requires states[k].withdrawals[w].progress.todo == {} && states[k].withdrawals[w].progress.failed == failed
    ensures forall ns, r :: Stored(states[n].stores, ns, r) && r.subject == user && r.turn == h ==> ns in failed
  {
    ArrivedBefore(cfg, states, steps, h, user, i, j);
    ErasingUntil(cfg, states, steps, h, w, user, j, k);
    TraceInv(cfg, states, steps, k);
    assert Silenced(states[k], h, user, failed);
    SilencedOnwards(cfg, states, steps, h, user, failed, k, n);
  }

  // ---------- After a full withdrawal nothing is kept until the next grant ----------

  predicate MayKeep(p: Phase) {
    p == Admitted(true) || p.Answering? || p.Keeping?
  }

  /** No Check of `user` lies between its Get and its Put. */
  ghost predicate NoStalePut(s: State, user: string) {
    forall h :: h in s.handlers && s.handlers[h].user == user ==> !s.handlers[h].phase.Checked?
  }

  /** `user` is not consented and cannot become so but by a grant. */
  ghost predicate Closed(s: State, user: string) {
    ConsentOf(s.acl, user) != Acl.Granted && NoStalePut(s, user)
  }

  /** What `user`'s turns may still keep, and have kept in this start, read a count of `count` at most. */
  ghost predicate Bounded(s: State, user: string, count: nat) {
    && (forall h :: h in s.handlers && s.handlers[h].user == user && MayKeep(s.handlers[h].phase) ==> s.handlers[h].count <= count)
    && (forall ns, r :: Stored(s.stores, ns, r) && r.subject == user && r.turn in s.handlers ==> s.handlers[r.turn].count <= count)
  }

  /** Nothing of `user` is kept, and no turn under way can keep anything of them. */
  ghost predicate Forgotten(s: State, user: string) {
    && (forall h :: h in s.handlers && s.handlers[h].user == user && MayKeep(s.handlers[h].phase) ==>
          s.handlers[h].count < Withdrawals(s.withdrawn, user))
    && (forall ns, r :: Stored(s.stores, ns, r) ==> r.subject != user)
  }

  lemma ClosedStep(cfg: Config, s: State, step: Step, user: string)
    requires AccessInv(s) && Enabled(cfg, s, step) && step != Grant(user) && Closed(s, user)
    ensures Closed(Apply(cfg, s, step), user)
  {
  }

  /** With consent off no turn is newly admitted. */
  lemma KeeperWasKeeper(cfg: Config, s: State, step: Step, user: string, h: nat)
    requires AccessInv(s) && Enabled(cfg, s, step) && Closed(s, user)
    requires var s' := Apply(cfg, s, step); h in s'.handlers && s'.handlers[h].user == user && MayKeep(s'.handlers[h].phase)
    ensures h in s.handlers && s.handlers[h].user == user && MayKeep(s.handlers[h].phase)
    ensures s.handlers[h].count == Apply(cfg, s, step).handlers[h].count
  {
  }

  /** Only a turn with the read lock writes a record. */
  lemma StoredBefore(cfg: Config, s: State, step: Step, ns: string, r: Kept)
    requires Enabled(cfg, s, step) && Stored(Apply(cfg, s, step).stores, ns, r)
    ensures
      || Stored(s.stores, ns, r)
      || (r.turn in s.handlers && s.handlers[r.turn].phase.Keeping? && s.handlers[r.turn].user == r.subject)
  {
  }

  lemma BoundedStep(cfg: Config, s: State, step: Step, user: string, count: nat)
    requires Inv(cfg, s) && Enabled(cfg, s, step) && Closed(s, user) && Bounded(s, user, count)
    ensures Bounded(Apply(cfg, s, step), user, count)
  {
    var s' := Apply(cfg, s, step);
    forall h | h in s'.handlers && s'.handlers[h].user == user && MayKeep(s'.handlers[h].phase)
      ensures s'.handlers[h].count <= count
    {
      KeeperWasKeeper(cfg, s, step, user, h);
    }
    forall ns, r | Stored(s'.stores, ns, r) && r.subject == user && r.turn in s'.handlers
      ensures s'.handlers[r.turn].count <= count
    {
      StoredBefore(cfg, s, step, ns, r);
      if Stored(s.stores, ns, r) {
        assert r.turn in s.handlers || r.turn in s.earlier;
      }
    }
  }

  lemma ForgottenStep(cfg: Config, s: State, step: Step, user: string)
    requires Inv(cfg, s) && Enabled(cfg, s, step) && Closed(s, user) && Forgotten(s, user)
    ensures Forgotten(Apply(cfg, s, step), user)
  {
    var s' := Apply(cfg, s, step);
    forall h | h in s'.handlers && s'.handlers[h].user == user && MayKeep(s'.handlers[h].phase)
      ensures s'.handlers[h].count < Withdrawals(s'.withdrawn, user)
    {
      KeeperWasKeeper(cfg, s, step, user, h);
    }
    forall ns, r | Stored(s'.stores, ns, r) ensures r.subject != user {
      StoredBefore(cfg, s, step, ns, r);
    }
  }

  /** Withdrawal `w` of `user` is under way since the count was `count`. */
  ghost predicate Withdrawing'(s: State, w: nat, user: string, count: nat) {
    && w in s.withdrawals && s.withdrawals[w].user == user && count <= Withdrawals(s.withdrawn, user)
    && !s.withdrawals[w].progress.Refused?
    && (s.withdrawals[w].progress.CountedUp? || s.withdrawals[w].progress.Deleting? ==> s.withdrawals[w].progress.count > count)
  }

  lemma WithdrawingStep(cfg: Config, s: State, step: Step, w: nat, user: string, count: nat)
    requires Enabled(cfg, s, step) && Withdrawing'(s, w, user, count) && step != Restart
    ensures Withdrawing'(Apply(cfg, s, step), w, user, count)
  {
  }

  lemma {:induction false} WithdrawalUnderWay(cfg: Config, states: seq<State>, steps: seq<Step>, w: nat, user: string, i: nat, k: nat)
    requires Trace(cfg, states, steps) && Inv(cfg, states[0])
    requires i < k < |states| && steps[i] == TurnOff(w, user, true) && NoStalePut(states[i], user)
    requires forall m :: i <= m < k ==> steps[m] != Restart && steps[m] != Grant(user)
    ensures var count := Withdrawals(states[i].withdrawn, user);
      Closed(states[k], user) && Bounded(states[k], user, count) && Withdrawing'(states[k], w, user, count)
  {
    var count := Withdrawals(states[i].withdrawn, user);
    TraceInv(cfg, states, steps, k - 1);
    var s := states[k - 1];
    if i < k - 1 {
      WithdrawalUnderWay(cfg, states, steps, w, user, i, k - 1);
      ClosedStep(cfg, s, steps[k - 1], user);
      BoundedStep(cfg, s, steps[k - 1], user, count);
      WithdrawingStep(cfg, s, steps[k - 1], w, user, count);
    }
  }

  lemma {:induction false} ForgottenOnwards(cfg: Config, states: seq<State>, steps: seq<Step>, user: string, k: nat, n: nat)
    requires Trace(cfg, states, steps) && Inv(cfg, states[0])
    requires k <= n < |states| && Closed(states[k], user) && Forgotten(states[k], user)
    requires forall m :: k <= m < n ==> steps[m] != Grant(user)
    ensures Closed(states[n], user) && Forgotten(states[n], user)
  {
    if k < n {
      ForgottenOnwards(cfg, states, steps, user, k, n - 1);
      TraceInv(cfg, states, steps, n - 1);
      ClosedStep(cfg, states[n - 1], steps[n - 1], user);
      ForgottenStep(cfg, states[n - 1], steps[n - 1], user);
    }
  }

  ghost predicate Succeeded(s: State, w: nat, user: string) {
    w in s.withdrawals && s.withdrawals[w].user == user && s.withdrawals[w].progress.Deleting? &&
    s.withdrawals[w].progress.todo == {} && s.withdrawals[w].progress.failed == {}
  }

  /** Once a withdrawal of `user` has fully succeeded (state k), no store holds any record of them
      until they next grant consent, restarts included, provided no Check of theirs lay between its
      Get and its Put when consent was turned off (step i). */
  lemma WithdrawalForgets(cfg: Config, states: seq<State>, steps: seq<Step>, w: nat, user: string, i: nat, k: nat, n: nat)
    requires Trace(cfg, states, steps) && Inv(cfg, states[0])
    requires i < k <= n < |states|
    requires steps[i] == TurnOff(w, user, true) && NoStalePut(states[i], user)
    requires Succeeded(states[k], w, user)
    requires forall m :: i <= m < k ==> steps[m] != Restart
    requires forall m :: i <= m < n ==> steps[m] != Grant(user)
    ensures forall ns, r :: Stored(states[n].stores, ns, r) ==> r.subject != user
  {
    WithdrawalUnderWay(cfg, states, steps, w, user, i, k);
    TraceInv(cfg, states, steps, k);
    assert Forgotten(states[k], user);
    ForgottenOnwards(cfg, states, steps, user, k, n);
  }

  // ---------- The proviso is exact ----------

  predicate Quiet(steps: seq<Step>, user: string) {
    forall m :: 0 <= m < |steps| ==> steps[m] != Restart && steps[m] != Grant(user)
  }

  /** `user` grants nothing, and the first `k` steps go without a restart. */
  predicate Ungranted(steps: seq<Step>, user: string, k: nat) {
    forall m :: 0 <= m < |steps| ==> steps[m] != Grant(user) && (m < k ==> steps[m] != Restart)
  }

  /** From `s`, withdrawal `w` of `user`, once fully successful, always leaves nothing of them kept
      for as long as they do not grant consent again, restarts included. */
  ghost predicate AlwaysForgets(cfg: Config, s: State, w: nat, user: string) {
    forall states: seq<State>, steps: seq<Step>, k: nat ::
      (Trace(cfg, states, steps) && states[0] == s && steps != [] && steps[0] == TurnOff(w, user, true) &&
       0 < k < |states| && Succeeded(states[k], w, user) && Ungranted(steps, user, k)) ==>
        !Holds(states[|steps|].stores, user)
  }

  ghost predicate Holds(stores: Stores, user: string) {
    exists ns, r :: Stored(stores, ns, r) && r.subject == user
  }

  lemma Extend(cfg: Config, states: seq<State>, steps: seq<Step>, step: Step) returns (states': seq<State>, steps': seq<Step>)
    requires Trace(cfg, states, steps) && Enabled(cfg, states[|steps|], step)
    ensures Trace(cfg, states', steps')
    ensures states' == states + [Apply(cfg, states[|steps|], step)] && steps' == steps + [step]
  {
    states', steps' := states + [Apply(cfg, states[|steps|], step)], steps + [step];
    forall i | 0 <= i < |steps'| ensures Next(cfg, states'[i], steps'[i], states'[i + 1]) {
      if i < |steps| {
        StepAt(cfg, states, steps, i);
      }
    }
  }

  /** Every keep under way can end, whatever else is in flight. */
  lemma {:induction false} Drain(cfg: Config, states: seq<State>, steps: seq<Step>, user: string, keeping: set<nat>)
    returns (states': seq<State>, steps': seq<Step>)
    requires Trace(cfg, states, steps) && Quiet(steps, user)
    requires forall h :: h in states[|steps|].handlers && states[|steps|].handlers[h].phase.Keeping? ==>
      h in keeping && states[|steps|].handlers[h].phase.appended <= 2
    ensures Trace(cfg, states', steps') && states <= states' && steps <= steps' && Quiet(steps', user)
    ensures var s, s' := states[|steps|], states'[|steps'|];
      !ReadLocked(s') && s'.acl == s.acl && s'.withdrawals == s.withdrawals && s'.recorded == s.recorded
    decreases |keeping|
  {
    states', steps' := states, steps;
    var s := states[|steps|];
    if h :| h in s.handlers && s.handlers[h].phase.Keeping? {
      if s.handlers[h].phase.appended < 2 {
        states', steps' := Extend(cfg, states', steps', Turn(h, KeepRecord(false, 0)));
      }
      states', steps' := Extend(cfg, states', steps', Turn(h, KeepEnd));
      states', steps' := Drain(cfg, states', steps', user, keeping - {h});
    }
  }

  /** An erase with a store for every namespace left can delete in all of them. */
  lemma {:induction false} DeleteAll(cfg: Config, states: seq<State>, steps: seq<Step>, user: string, w: nat, count: nat, todo: set<string>)
    returns (states': seq<State>, steps': seq<Step>)
    requires Trace(cfg, states, steps) && Quiet(steps, user) && todo <= cfg.open
    requires w in states[|steps|].withdrawals && states[|steps|].withdrawals[w] == Withdrawing(user, Deleting(count, todo, {}))
    ensures Trace(cfg, states', steps') && states <= states' && steps <= steps' && Quiet(steps', user)
    ensures var s, s' := states[|steps|], states'[|steps'|]; s'.acl == s.acl && Succeeded(s', w, user)
    decreases |todo|
  {
    states', steps' := states, steps;
    if ns :| ns in todo {
      states', steps' := Extend(cfg, states', steps', Withdraw(w, Delete(ns, true, {})));
      states', steps' := DeleteAll(cfg, states', steps', user, w, count, todo - {ns});
    }
  }

  lemma {:induction false} FreshTurn(used: set<nat>) returns (h: nat)
    ensures h !in used && forall x :: x in used ==> x < h
    decreases |used|
  {
    if used == {} {
      h := 0;
    } else {
      var x :| x in used;
      var y := FreshTurn(used - {x});
      h := if x < y then y else x + 1;
      forall z | z in used ensures z < h {
        assert z == x || z in used - {x};
      }
    }
  }

  /** A consented user's next directed message is between its Get and its Put, once their rate window
      has passed. */
  lemma ConsentedTurnIsChecked(cfg: Config, states: seq<State>, steps: seq<Step>, user: string, chat: string)
    returns (states': seq<State>, steps': seq<Step>, h: nat)
    requires Trace(cfg, states, steps) && Quiet(steps, user) && AccessInv(states[|steps|])
    requires ConsentOf(states[|steps|].acl, user) == Acl.Granted && cfg.group(chat)
    ensures Trace(cfg, states', steps') && states <= states' && steps <= steps' && Quiet(steps', user)
    ensures var s, s' := states[|steps|], states'[|steps'|];
      && s'.recorded == s.recorded && s'.withdrawals == s.withdrawals && s'.withdrawn == s.withdrawn
      && h in s'.handlers && s'.handlers[h].phase.Checked?
      && s'.handlers[h] == Handler(user, chat, true, Withdrawals(s.withdrawn, user), s'.handlers[h].phase)
  {
    var s := states[|steps|];
    h := FreshTurn(s.handlers.Keys + s.earlier);
    var rec := Acl.Lookup(s.acl, user);
    var now := if rec.rateStart.Some? then rec.rateStart.value + Acl.RATE_WINDOW else 0;
    assert Acl.Judge(rec, true, cfg.defTier, now).Admit?;
    states', steps' := Extend(cfg, states, steps, Arrive(h, user, chat, true));
    states', steps' := Extend(cfg, states', steps', Turn(h, GateGet(now, true)));
  }

  /** A consented user's next directed message is admitted. */
  lemma ConsentedTurnIsAdmitted(cfg: Config, states: seq<State>, steps: seq<Step>, user: string, chat: string)
    returns (states': seq<State>, steps': seq<Step>, h: nat)
    requires Trace(cfg, states, steps) && Quiet(steps, user) && AccessInv(states[|steps|])
    requires ConsentOf(states[|steps|].acl, user) == Acl.Granted && cfg.group(chat)
    ensures Trace(cfg, states', steps') && states <= states' && steps <= steps' && Quiet(steps', user)
    ensures var s' := states'[|steps'|];
      h in s'.handlers && s'.handlers[h] == Handler(user, chat, true, Withdrawals(s'.withdrawn, user), Admitted(true))
  {
    states', steps', h := ConsentedTurnIsChecked(cfg, states, steps, user, chat);
    states', steps' := Extend(cfg, states', steps', Turn(h, GatePut(true)));
  }

  lemma AdmittedTurnIsKept(cfg: Config, states: seq<State>, steps: seq<Step>, user: string, chat: string, h: nat)
    returns (states': seq<State>, steps': seq<Step>)
    requires Trace(cfg, states, steps) && Quiet(steps, user) && user != "" && chat != ""
    requires var s := states[|steps|];
      h in s.handlers && s.handlers[h] == Handler(user, chat, true, Withdrawals(s.withdrawn, user), Admitted(true))
    ensures Trace(cfg, states', steps') && states <= states' && steps <= steps' && Quiet(steps', user)
    ensures Holds(states'[|steps'|].stores, user)
  {
    states', steps' := Extend(cfg, states, steps, Turn(h, Buffer(Chats.Turn(user, "", false, "", 0, "", ""))));
    states', steps' := Extend(cfg, states', steps', Turn(h, KeepBegin));
    states', steps' := Extend(cfg, states', steps', Turn(h, KeepRecord(true, 0)));
    assert Stored(states'[|steps'|].stores, cfg.StoreFor(chat), Kept(h, user, FromUser, 0));
  }

  lemma StalePutGrants(cfg: Config, s: State, w: nat, user: string, h: nat)
    returns (states: seq<State>, steps: seq<Step>)
    requires Inv(cfg, s) && w !in s.withdrawals
    requires h in s.handlers && s.handlers[h].user == user && s.handlers[h].phase.Checked?
    ensures Trace(cfg, states, steps) && states[0] == s && steps != [] && steps[0] == TurnOff(w, user, true) && Quiet(steps, user)
    ensures var s' := states[|steps|];
      && ConsentOf(s'.acl, user) == Acl.Granted && s'.recorded == s.recorded
      && w in s'.withdrawals && s'.withdrawals[w] == Withdrawing(user, TurnedOff)
  {
    states, steps := Extend(cfg, [s], [], TurnOff(w, user, true));
    states, steps := Extend(cfg, states, steps, Turn(h, GatePut(true)));
  }

  /** A withdrawal that has purged the buffer can count up, once every keep under way has ended. */
  lemma CountsUp(cfg: Config, states: seq<State>, steps: seq<Step>, user: string, w: nat)
    returns (states': seq<State>, steps': seq<Step>)
    requires Trace(cfg, states, steps) && Quiet(steps, user) && CountInv(states[|steps|])
    requires w in states[|steps|].withdrawals && states[|steps|].withdrawals[w] == Withdrawing(user, BufferPurged)
    ensures Trace(cfg, states', steps') && states <= states' && steps <= steps' && Quiet(steps', user)
    ensures var s, s' := states[|steps|], states'[|steps'|];
      && s'.acl == s.acl && s'.recorded == s.recorded
      && w in s'.withdrawals && s'.withdrawals[w].user == user && s'.withdrawals[w].progress.CountedUp?
  {
    states', steps' := Drain(cfg, states, steps, user, states[|steps|].handlers.Keys);
    states', steps' := Extend(cfg, states', steps', Withdraw(w, CountUp));
  }

  /** Consent off with a Put outstanding, the Put, and the withdrawal up to its erase. */
  lemma StalePutThenErase(cfg: Config, s: State, w: nat, user: string, h: nat)
    returns (states: seq<State>, steps: seq<Step>)
    requires Inv(cfg, s) && s.recorded <= cfg.open && w !in s.withdrawals
    requires h in s.handlers && s.handlers[h].user == user && s.handlers[h].phase.Checked?
    ensures Trace(cfg, states, steps) && states[0] == s && steps != [] && steps[0] == TurnOff(w, user, true) && Quiet(steps, user)
    ensures var s' := states[|steps|];
      ConsentOf(s'.acl, user) == Acl.Granted && s'.recorded <= cfg.open &&
      w in s'.withdrawals && s'.withdrawals[w].user == user && s'.withdrawals[w].progress.CountedUp?
  {
    states, steps := StalePutGrants(cfg, s, w, user, h);
    states, steps := Extend(cfg, states, steps, Withdraw(w, PurgeBuffer));
    TraceInv(cfg, states, steps, |steps|);
    states, steps := CountsUp(cfg, states, steps, user, w);
  }

  /** A Put outstanding when consent is turned off writes Granted back: some run from there fully
      succeeds in withdrawing and then keeps a record of the user, with no grant in between. */
  lemma StalePutKeepsAgain(cfg: Config, s: State, w: nat, user: string, h: nat, chat: string)
    returns (states: seq<State>, steps: seq<Step>, k: nat)
    requires Inv(cfg, s) && s.recorded <= cfg.open && w !in s.withdrawals
    requires user != "" && chat != "" && cfg.group(chat)
    requires h in s.handlers && s.handlers[h].user == user && s.handlers[h].phase.Checked?
    ensures Trace(cfg, states, steps) && states[0] == s && steps != [] && steps[0] == TurnOff(w, user, true)
    ensures 0 < k < |states| && Succeeded(states[k], w, user) && Quiet(steps, user)
    ensures Holds(states[|steps|].stores, user)
  {
    states, steps := StalePutThenErase(cfg, s, w, user, h);
    states, steps := Extend(cfg, states, steps, Withdraw(w, ListNamespaces));
    var x := states[|steps|].withdrawals[w];
    states, steps := DeleteAll(cfg, states, steps, user, w, x.progress.count, x.progress.todo);
    k := |steps|;
    TraceInv(cfg, states, steps, k);
    var erased := states[k];
    var again: nat;
    states, steps, again := ConsentedTurnIsAdmitted(cfg, states, steps, user, chat);
    states, steps := AdmittedTurnIsKept(cfg, states, steps, user, chat, again);
    assert states[k] == erased;
  }

  /** The proviso of WithdrawalForgets is exactly what the promise needs, in every state where a
      withdrawal can begin and every recorded namespace has a store. */
  lemma ForgetsIffNoStalePut(cfg: Config, s: State, w: nat, user: string, chat: string)
    requires Inv(cfg, s) && s.recorded <= cfg.open && w !in s.withdrawals
    requires user != "" && chat != "" && cfg.group(chat)
    ensures AlwaysForgets(cfg, s, w, user) <==> NoStalePut(s, user)
  {
    if h :| h in s.handlers && s.handlers[h].user == user && s.handlers[h].phase.Checked? {
      var states, steps, k := StalePutKeepsAgain(cfg, s, w, user, h, chat);
      assert Ungranted(steps, user, k);
    } else {
      forall states: seq<State>, steps: seq<Step>, k: nat |
        Trace(cfg, states, steps) && states[0] == s && steps != [] && steps[0] == TurnOff(w, user, true) &&
        0 < k < |states| && Succeeded(states[k], w, user) && Ungranted(steps, user, k)
        ensures !Holds(states[|steps|].stores, user)
      {
        WithdrawalForgets(cfg, states, steps, w, user, 0, k, |steps|);
      }
    }
  }

  /** From any state a start with every recorded namespace's store can begin in, a consented user's one
      message leads to a state from which their withdrawal does not last. */
  lemma StalePutIsReached(cfg: Config, s: State, w: nat, user: string, chat: string) returns (states: seq<State>, steps: seq<Step>)
    requires Initial(cfg, s) && s.recorded <= cfg.open && ConsentOf(s.acl, user) == Acl.Granted
    requires user != "" && chat != "" && cfg.group(chat)
    ensures Trace(cfg, states, steps) && states[0] == s && w !in states[|steps|].withdrawals
    ensures !AlwaysForgets(cfg, states[|steps|], w, user)
  {
    var h: nat;
    InitInv(cfg, s);
    states, steps, h := ConsentedTurnIsChecked(cfg, [s], [], user, chat);
    TraceInv(cfg, states, steps, |steps|);
    ForgetsIffNoStalePut(cfg, states[|steps|], w, user, chat);
  }

  // ---------- The conversation buffer after a withdrawal ----------

  /** A group turn between its admission and the end of its last purge. */
  predicate Buffering(p: Phase) {
    p.Admitted? || p.Answering? || p.Keeping? || p.Replying? || p.Settling? || p.Purging?
  }

  ghost predicate TurnExcuse(s: State, h: nat, user: string) {
    h in s.handlers && s.handlers[h].user == user && (Buffering(s.handlers[h].phase) || s.handlers[h].phase == Done(true))
  }

  ghost predicate PurgeDue(s: State, w: nat, user: string) {
    w in s.withdrawals && s.withdrawals[w] == Withdrawing(user, TurnedOff)
  }

  /** Why a turn of `user` may still be in the buffer. */
  ghost predicate Excused(s: State, user: string) {
    || ConsentOf(s.acl, user) == Acl.Granted
    || (exists h :: TurnExcuse(s, h, user))
    || (exists w :: PurgeDue(s, w, user))
  }

  ghost predicate Buffered(convos: Chats.Convos, chat: string, user: string) {
    exists t :: t in Chats.Conv(convos, chat) && t.speakerId == user
  }

  ghost predicate BufferInv(cfg: Config, s: State) {
    && (cfg.retain <= 0 ==> s.convos == map[])
    && forall chat, user :: cfg.group(chat) && user != "" && Buffered(s.convos, chat, user) ==> Excused(s, user)
  }

  lemma AppendBuffers(convos: Chats.Convos, retain: int, chat: string, t: Chats.Turn, c: string, user: string)
    requires Buffered(Chats.Appended(convos, retain, chat, t), c, user)
    ensures Buffered(convos, c, user) || (c == chat && t.speakerId == user)
  {
  }

  lemma PurgeClears(convos: Chats.Convos, retain: int, user: string, c: string, u: string)
    requires Buffered(Chats.UserPurged(convos, retain, user), c, u)
    ensures Buffered(convos, c, u) && (u == user ==> retain <= 0 || user == "")
  {
  }

  lemma TurnExcuseStep(cfg: Config, s: State, step: Step, h: nat, user: string)
    requires Enabled(cfg, s, step) && step != Restart && TurnExcuse(s, h, user)
    ensures Excused(Apply(cfg, s, step), user) || step == Turn(h, PurgeTurns)
  {
    var s' := Apply(cfg, s, step);
    assert TurnExcuse(s', h, user) || step == Turn(h, PurgeTurns) || ConsentOf(s'.acl, user) == Acl.Granted;
  }

  lemma PurgeDueStep(cfg: Config, s: State, step: Step, w: nat, user: string)
    requires Enabled(cfg, s, step) && step != Restart && PurgeDue(s, w, user)
    ensures Excused(Apply(cfg, s, step), user) || step == Withdraw(w, PurgeBuffer)
  {
    assert PurgeDue(Apply(cfg, s, step), w, user) || step == Withdraw(w, PurgeBuffer);
  }

  /** Consent goes only when it is turned off, and then a purge is due. */
  lemma ConsentStep(cfg: Config, s: State, step: Step, user: string)
    requires AccessInv(s) && Enabled(cfg, s, step) && step != Restart && ConsentOf(s.acl, user) == Acl.Granted
    ensures Excused(Apply(cfg, s, step), user)
  {
    if step.TurnOff? && step.user == user && step.ok {
      assert PurgeDue(Apply(cfg, s, step), step.w, user);
    }
  }

  /** An excuse lasts until the user's turns are purged. */
  lemma ExcuseStep(cfg: Config, s: State, step: Step, user: string)
    requires AccessInv(s) && Enabled(cfg, s, step) && step != Restart && Excused(s, user)
    ensures
      || Excused(Apply(cfg, s, step), user)
      || (step.Turn? && step.turnAct.PurgeTurns? && s.handlers[step.h].user == user)
      || (step.Withdraw? && step.withdrawAct.PurgeBuffer? && s.withdrawals[step.w].user == user)
  {
    if h :| TurnExcuse(s, h, user) {
      TurnExcuseStep(cfg, s, step, h, user);
    } else if w :| PurgeDue(s, w, user) {
      PurgeDueStep(cfg, s, step, w, user);
    } else {
      ConsentStep(cfg, s, step, user);
    }
  }

  /** What a step adds to a group's buffer is said by a turn still buffering. */
  lemma BufferedBefore(cfg: Config, s: State, step: Step, chat: string, user: string)
    requires Enabled(cfg, s, step) && step != Restart && cfg.group(chat) && user != ""
    requires Buffered(Apply(cfg, s, step).convos, chat, user)
    ensures Buffered(s.convos, chat, user) || Excused(Apply(cfg, s, step), user)
  {
    var s' := Apply(cfg, s, step);
    match step
    case Turn(h, Buffer(turn)) =>
      AppendBuffers(s.convos, cfg.retain, s.handlers[h].chat, turn, chat, user);
      assert turn.speakerId == user ==> TurnExcuse(s', h, user);
    case Turn(h, Reply(Some(botTurn))) =>
      AppendBuffers(s.convos, cfg.retain, s.handlers[h].chat, botTurn, chat, user);
    case Turn(h, PurgeTurns) => PurgeClears(s.convos, cfg.retain, s.handlers[h].user, chat, user);
    case Withdraw(w, PurgeBuffer) => PurgeClears(s.convos, cfg.retain, s.withdrawals[w].user, chat, user);
    case AdminTurn(c, turn) => AppendBuffers(s.convos, cfg.retain, c, turn, chat, user);
    case _ =>
  }

  lemma BufferStep(cfg: Config, s: State, step: Step)
    requires AccessInv(s) && BufferInv(cfg, s) && Enabled(cfg, s, step)
    ensures BufferInv(cfg, Apply(cfg, s, step))
  {
    var s' := Apply(cfg, s, step);
    if step != Restart {
      forall chat, user | cfg.group(chat) && user != "" && Buffered(s'.convos, chat, user)
        ensures Excused(s', user)
      {
        BufferedBefore(cfg, s, step, chat, user);
        if !Excused(s', user) {
          ExcuseStep(cfg, s, step, user);
          PurgeClears(s.convos, cfg.retain, user, chat, user);
        }
      }
    }
  }

  lemma {:induction false} BufferTrace(cfg: Config, states: seq<State>, steps: seq<Step>, n: nat)
    requires Trace(cfg, states, steps) && Initial(cfg, states[0]) && n < |states|
    ensures BufferInv(cfg, states[n])
  {
    InitInv(cfg, states[0]);
    if n > 0 {
      BufferTrace(cfg, states, steps, n - 1);
      TraceInv(cfg, states, steps, n - 1);
      BufferStep(cfg, states[n - 1], steps[n - 1]);
    }
  }

  /** In every reachable state: when `user` is not consented, none of their withdrawals is between
      turning consent off and purging the buffer, and none of their group turns is between its
      admission and the end of its purge or ended on a failed read of consent, the buffer holds no
      turn of theirs in any group, a stale Put included. */
  lemma BufferForgets(cfg: Config, states: seq<State>, steps: seq<Step>, n: nat, user: string, chat: string)
    requires Trace(cfg, states, steps) && Initial(cfg, states[0]) && n < |states|
    requires user != "" && cfg.group(chat) && ConsentOf(states[n].acl, user) != Acl.Granted
    requires forall w :: w in states[n].withdrawals ==> states[n].withdrawals[w] != Withdrawing(user, TurnedOff)
    requires forall h :: h in states[n].handlers && states[n].handlers[h].user == user ==>
      !Buffering(states[n].handlers[h].phase) && states[n].handlers[h].phase != Done(true)
    ensures forall t :: t in Chats.Conv(states[n].convos, chat) ==> t.speakerId != user
  {
    BufferTrace(cfg, states, steps, n);
    assert !Excused(states[n], user);
    forall t | t in Chats.Conv(states[n].convos, chat) ensures t.speakerId != user {
      assert t.speakerId == user ==> Buffered(states[n].convos, chat, user);
    }
  }
}
