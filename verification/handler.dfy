/** The group handler and the consent command as they run (internal/runtime handler and consent,
    internal/core long-term memory), each proved to be a run of the protocol. */
module Handler {
  import opened Options
  import opened LongMemory
  import opened Withdrawal
  import Acl
  import Chats = Conversation

  /** A group message, and the turn it is buffered as. */
  datatype Message = Message(user: string, chat: string, directed: bool, turn: Chats.Turn)

  /** What the engine makes of a query; an empty answer is nothing to buffer. */
  datatype Outcome = Failed | AtCapacity | Refused | Answered(botTurn: Option<Chats.Turn>)

  /** What the turn meets outside the instance: the clock, whether the user's last nudge is still cooling,
      the engine, and which reads and writes work. */
  datatype World = World(now: int, getOk: bool, putOk: bool, cooling: bool, outcome: Outcome,
                         keepUser: bool, keepModel: bool, keptAt: int, readOk: bool)

  datatype Reply = Silent | Nudged | TurnedAway | Throttled | Error | Capacity | Declined | Answer

  // ---------- What a turn comes to ----------

  function VerdictOn(cfg: Config, acl: map<string, Acl.Record>, msg: Message, world: World): Acl.Verdict {
    Acl.Judge(Acl.Lookup(acl, msg.user), msg.directed, cfg.defTier, world.now)
  }

  function Decided(verdict: Acl.Verdict, world: World): Acl.Decision {
    if !world.getOk then Acl.Refuse
    else
      match verdict
      case Quiet => Acl.Silent
      case Unasked => if world.cooling then Acl.Silent else Acl.Nudge
      case Ambient => Acl.LogOnly
      case Throttled => Acl.RateLimited
      case Admit(_) => if world.putOk then Acl.Serve else Acl.Refuse
  }

  function AclAfter(acl: map<string, Acl.Record>, verdict: Acl.Verdict, world: World): map<string, Acl.Record> {
    if Decided(verdict, world) == Acl.Serve then acl[verdict.put.user := verdict.put] else acl
  }

  /** Both the user and the chat of the turn have a name, and no withdrawal was counted since `count`. */
  predicate MayStore(withdrawn: map<string, nat>, msg: Message, count: nat) {
    msg.user != "" && msg.chat != "" && Withdrawals(withdrawn, msg.user) == count
  }

  /** The message's record, and the answer's if the message's could be kept. */
  function KeptBy(h: nat, user: string, world: World): set<Kept> {
    (if world.keepUser then {Kept(h, user, FromUser, world.keptAt)} else {}) +
    (if world.keepUser && world.keepModel then {Kept(h, user, FromModel, world.keptAt)} else {})
  }

  function Remembers(withdrawn: map<string, nat>, h: nat, msg: Message, count: nat, world: World): set<Kept> {
    if world.outcome.Answered? && MayStore(withdrawn, msg, count) then KeptBy(h, msg.user, world) else {}
  }

  /** The stores, record by record, with what turn `h` keeps. */
  ghost predicate Keeps(before: Stores, after: Stores, ns: string, records: set<Kept>) {
    forall n, r :: Stored(after, n, r) <==> Stored(before, n, r) || (n == ns && r in records)
  }

  function AnsweredConvos(cfg: Config, convos: Chats.Convos, msg: Message, outcome: Outcome): Chats.Convos {
    var said := Chats.Appended(convos, cfg.retain, msg.chat, msg.turn);
    if outcome.Answered? && outcome.botTurn.Some? then Chats.Appended(said, cfg.retain, msg.chat, outcome.botTurn.value) else said
  }

  /** The recorded namespaces an erase does not get through. */
  function Failing(recorded: set<string>, open: set<string>, fails: set<string>): set<string> {
    set ns | ns in recorded && !(ns in open && ns !in fails)
  }

  /** In each of `tried`, the user's records go, or what was lost of them when the delete failed. */
  ghost predicate Erases(before: Stores, after: Stores, tried: set<string>, user: string, fails: set<string>, lost: set<Kept>) {
    forall ns :: Records(after, ns) == if ns in tried then Spared(Records(before, ns), user, ns !in fails, lost) else Records(before, ns)
  }

  /** One namespace more. */
  lemma EraseNext(before: Stores, middle: Stores, after: Stores, tried: set<string>, ns: string, open: set<string>,
                  user: string, fails: set<string>, lost: set<Kept>)
    requires Erases(before, middle, tried * open, user, fails, lost) && ns !in tried
    requires Erases(middle, after, {ns} * open, user, fails, lost)
    ensures Erases(before, after, (tried + {ns}) * open, user, fails, lost)
    ensures Failing(tried + {ns}, open, fails) == if ns in open && ns !in fails then Failing(tried, open, fails) else Failing(tried, open, fails) + {ns}
  {
  }

  /** An erase adds nothing, and takes nothing of anyone else's. */
  lemma OnlyTheirs(before: Stores, after: Stores, tried: set<string>, user: string, fails: set<string>, lost: set<Kept>)
    requires Erases(before, after, tried, user, fails, lost)
    ensures forall ns, r :: Stored(after, ns, r) ==> Stored(before, ns, r)
    ensures forall ns, r :: Stored(before, ns, r) && r.subject != user ==> Stored(after, ns, r)
  {
    forall ns, r | Stored(after, ns, r) ensures Stored(before, ns, r) {
      assert r in Records(after, ns);
    }
    forall ns, r | Stored(before, ns, r) && r.subject != user ensures Stored(after, ns, r) {
      assert r in Records(before, ns);
      assert Records(after, ns) == if ns in tried then Spared(Records(before, ns), user, ns !in fails, lost) else Records(before, ns);
    }
  }

  /** An erase that gets through every recorded namespace leaves nothing of the user there. */
  lemma NothingLeft(before: Stores, after: Stores, recorded: set<string>, open: set<string>, user: string, fails: set<string>, lost: set<Kept>)
    requires Erases(before, after, recorded * open, user, fails, lost) && Failing(recorded, open, fails) == {}
    ensures forall ns, r :: ns in recorded && Stored(after, ns, r) ==> r.subject != user
  {
    forall ns, r | ns in recorded && Stored(after, ns, r) ensures r.subject != user {
      assert ns !in Failing(recorded, open, fails);
      assert r in Records(after, ns);
    }
  }

  function ReplyTo(outcome: Outcome): Reply {
    match outcome
    case Failed => Error
    case AtCapacity => Capacity
    case Refused => Declined
    case Answered(_) => Answer
  }

  function ReplyOn(d: Acl.Decision, outcome: Outcome): Reply {
    match d
    case Serve => ReplyTo(outcome)
    case LogOnly => Silent
    case RateLimited => Throttled
    case Nudge => Nudged
    case Silent => Silent
    case Refuse => TurnedAway
  }

  function ConvosOn(cfg: Config, convos: Chats.Convos, d: Acl.Decision, msg: Message, outcome: Outcome): Chats.Convos {
    match d
    case Serve => AnsweredConvos(cfg, convos, msg, outcome)
    case LogOnly => Chats.Appended(convos, cfg.retain, msg.chat, msg.turn)
    case RateLimited => Chats.Appended(convos, cfg.retain, msg.chat, msg.turn)
    case _ => convos
  }

  /** A consented user's message, which is buffered unless its gate's Get or Put fails. */
  predicate Consenting(cfg: Config, acl: map<string, Acl.Record>, msg: Message, world: World) {
    && ConsentOf(acl, msg.user) == Acl.Granted && world.getOk
    && (world.putOk || !msg.directed || !Acl.HasRoom(Acl.Lookup(acl, msg.user), cfg.defTier, world.now))
  }

  /** A named, consented user's directed message within their allowance, answered. */
  predicate ServedAnswer(cfg: Config, acl: map<string, Acl.Record>, msg: Message, world: World) {
    && msg.user != "" && msg.chat != "" && msg.directed && world.getOk && world.putOk && world.outcome.Answered?
    && ConsentOf(acl, msg.user) == Acl.Granted && Acl.HasRoom(Acl.Lookup(acl, msg.user), cfg.defTier, world.now)
  }

  /** What is decided, by consent, direction and room. */
  lemma DecidedBy(cfg: Config, acl: map<string, Acl.Record>, msg: Message, world: World)
    ensures var d, consent := Decided(VerdictOn(cfg, acl, msg, world), world), ConsentOf(acl, msg.user);
      var room := Acl.HasRoom(Acl.Lookup(acl, msg.user), cfg.defTier, world.now);
      && (d == Acl.Serve <==> world.getOk && world.putOk && msg.directed && consent == Acl.Granted && room)
      && (d == Acl.RateLimited <==> world.getOk && msg.directed && consent == Acl.Granted && !room)
      && (d == Acl.LogOnly <==> world.getOk && !msg.directed && consent == Acl.Granted)
      && (d == Acl.Nudge <==> world.getOk && msg.directed && consent == Acl.Unknown && !world.cooling)
      && (d == Acl.Refuse <==> !world.getOk || (!world.putOk && msg.directed && consent == Acl.Granted && room))
  {
  }

  predicate EndsWith<T(==)>(s: seq<T>, end: seq<T>) {
    |end| <= |s| && s[|s| - |end|..] == end
  }

  lemma LastTwo(a: seq<Chats.Turn>, t: Chats.Turn, n: nat)
    requires n > 1
    ensures var r := Chats.LastN(a + [t], n);
      t in r && (a != [] ==> a[|a| - 1] in r && EndsWith(r, [a[|a| - 1], t]))
  {
    var r := Chats.LastN(a + [t], n);
    assert r[|r| - 1] == t;
    if a != [] {
      assert r[|r| - 2] == a[|a| - 1];
      assert r[|r| - 2..] == [a[|a| - 1], t];
    }
  }

  predicate LastIs(s: seq<Chats.Turn>, t: Chats.Turn) {
    s != [] && s[|s| - 1] == t && t in s
  }

  /** An appended turn is the chat's last, behind the one that was, and no other chat changes. */
  lemma AppendedThere(convos: Chats.Convos, after: Chats.Convos, retain: int, chat: string, t: Chats.Turn)
    requires after == Chats.Appended(convos, retain, chat, t)
    ensures retain > 1 ==> LastIs(Chats.Conv(after, chat), t)
    ensures retain > 1 ==> forall last :: LastIs(Chats.Conv(convos, chat), last) ==>
      last in Chats.Conv(after, chat) && EndsWith(Chats.Conv(after, chat), [last, t])
    ensures forall other :: other != chat ==> Chats.Conv(after, other) == Chats.Conv(convos, other)
  {
    if retain > 1 {
      var r := Chats.LastN(Chats.Conv(convos, chat) + [t], retain);
      assert r[|r| - 1] == t;
      LastTwo(Chats.Conv(convos, chat), t, retain);
    }
  }

  lemma TwiceAppended(convos: Chats.Convos, said: Chats.Convos, both: Chats.Convos, retain: int, chat: string, t: Chats.Turn, b: Chats.Turn)
    requires said == Chats.Appended(convos, retain, chat, t) && both == Chats.Appended(said, retain, chat, b)
    ensures retain > 1 ==> t in Chats.Conv(both, chat) && EndsWith(Chats.Conv(both, chat), [t, b])
    ensures forall other :: other != chat ==> Chats.Conv(both, other) == Chats.Conv(convos, other)
  {
    AppendedThere(convos, said, retain, chat, t);
    AppendedThere(said, both, retain, chat, b);
  }

  /** A message that is buffered is there, and no other chat changes. */
  lemma BufferedOn(cfg: Config, convos: Chats.Convos, d: Acl.Decision, msg: Message, outcome: Outcome)
    ensures var after := ConvosOn(cfg, convos, d, msg, outcome);
      && (cfg.retain > 1 && d in {Acl.Serve, Acl.LogOnly, Acl.RateLimited} ==> msg.turn in Chats.Conv(after, msg.chat))
      && (cfg.retain > 1 && d == Acl.Serve && outcome.Answered? && outcome.botTurn.Some? ==>
            EndsWith(Chats.Conv(after, msg.chat), [msg.turn, outcome.botTurn.value]))
      && forall chat :: chat != msg.chat ==> Chats.Conv(after, chat) == Chats.Conv(convos, chat)
  {
    var said := Chats.Appended(convos, cfg.retain, msg.chat, msg.turn);
    AppendedThere(convos, said, cfg.retain, msg.chat, msg.turn);
    if outcome.Answered? && outcome.botTurn.Some? {
      TwiceAppended(convos, said, AnsweredConvos(cfg, convos, msg, outcome), cfg.retain, msg.chat, msg.turn, outcome.botTurn.value);
    }
  }

  /** A run of the protocol so far. */
  datatype Path = Path(states: seq<State>, steps: seq<Step>) {
    ghost predicate Valid(cfg: Config, s: State) {
      Trace(cfg, states, steps) && states[0] == s
    }

    ghost function Last(): State
      requires |states| == |steps| + 1
    {
      states[|steps|]
    }
  }

  lemma Walk(cfg: Config, s: State, path: Path, step: Step) returns (next: Path)
    requires path.Valid(cfg, s) && Enabled(cfg, path.Last(), step)
    ensures next.Valid(cfg, s) && next.Last() == Apply(cfg, path.Last(), step) && next.steps == path.steps + [step]
  {
    var states, steps := Extend(cfg, path.states, path.steps, step);
    next := Path(states, steps);
  }

  class Instance {
    const cfg: Config
    var acl: map<string, Acl.Record>
    var withdrawn: map<string, nat>
    var convos: Chats.Convos
    var stores: Stores
    var recorded: set<string>

    constructor (cfg: Config, acl: map<string, Acl.Record>, stores: Stores, recorded: set<string>)
      ensures this.cfg == cfg && this.acl == acl && this.stores == stores && this.recorded == recorded
      ensures withdrawn == map[] && convos == map[]
    {
      this.cfg, this.acl, this.stores, this.recorded := cfg, acl, stores, recorded;
      withdrawn, convos := map[], map[];
    }

    /** The instance's part of a protocol state. */
    ghost predicate Shows(s: State)
      reads this
    {
      s.acl == acl && s.withdrawn == withdrawn && s.convos == convos && s.stores == stores && s.recorded == recorded
    }

    /** The path ends in a state the instance shows, with turn `h` where `phase` says. */
    ghost predicate At(s: State, path: Path, h: nat, msg: Message, count: nat, phase: Phase)
      reads this
    {
      && path.Valid(cfg, s) && Shows(path.Last()) && h in path.Last().handlers
      && path.Last().handlers[h] == Handler(msg.user, msg.chat, msg.directed, count, phase)
    }

    /** purgeIfWithdrawn: consent is read again, and a withdrawn user's turns are purged. */
    method PurgeIfWithdrawn(ghost s: State, ghost path: Path, h: nat, msg: Message, ghost count: nat, readOk: bool) returns (ghost next: Path)
      requires At(s, path, h, msg, count, Settling)
      modifies `convos
      ensures At(s, next, h, msg, count, Done(!readOk))
      ensures convos == if readOk && ConsentOf(acl, msg.user) != Acl.Granted then Chats.UserPurged(old(convos), cfg.retain, msg.user) else old(convos)
    {
      next := Walk(cfg, s, path, Turn(h, ReadConsent(readOk)));
      if readOk && ConsentOf(acl, msg.user) != Acl.Granted {
        convos := Chats.UserPurged(convos, cfg.retain, msg.user);
        next := Walk(cfg, s, next, Turn(h, PurgeTurns));
      }
    }

    method RememberUser(ghost s: State, ghost path: Path, h: nat, msg: Message, ghost count: nat, serve: bool) returns (ghost next: Path)
      requires At(s, path, h, msg, count, Admitted(serve)) && msg.turn.speakerId == msg.user
      modifies `convos
      ensures At(s, next, h, msg, count, if serve then Answering else Settling)
      ensures convos == Chats.Appended(old(convos), cfg.retain, msg.chat, msg.turn)
    {
      convos := Chats.Appended(convos, cfg.retain, msg.chat, msg.turn);
      next := Walk(cfg, s, path, Turn(h, Buffer(msg.turn)));
    }

    /** The gate's Get, decision and Put. */
    method Check(ghost s: State, ghost path: Path, h: nat, msg: Message, ghost count: nat, world: World)
      returns (decision: Acl.Decision, ghost next: Path)
      requires At(s, path, h, msg, count, Counted)
      modifies `acl
      ensures decision == Decided(VerdictOn(cfg, old(acl), msg, world), world)
      ensures acl == AclAfter(old(acl), VerdictOn(cfg, old(acl), msg, world), world)
      ensures decision == Acl.Serve ==> At(s, next, h, msg, count, Admitted(true))
      ensures decision in {Acl.LogOnly, Acl.RateLimited} ==> At(s, next, h, msg, count, Admitted(false))
      ensures decision in {Acl.Nudge, Acl.Refuse, Acl.Silent} ==> At(s, next, h, msg, count, Done(false))
      ensures decision in {Acl.Serve, Acl.LogOnly, Acl.RateLimited} ==> ConsentOf(old(acl), msg.user) == Acl.Granted
      ensures ConsentOf(acl, msg.user) == ConsentOf(old(acl), msg.user)
    {
      next := Walk(cfg, s, path, Turn(h, GateGet(world.now, world.getOk)));
      if !world.getOk {
        return Acl.Refuse, next;
      }
      match Acl.Judge(Acl.Lookup(acl, msg.user), msg.directed, cfg.defTier, world.now)
      case Quiet => decision := Acl.Silent;
      case Unasked => decision := if world.cooling then Acl.Silent else Acl.Nudge;
      case Ambient => decision := Acl.LogOnly;
      case Throttled => decision := Acl.RateLimited;
      case Admit(put) =>
        next := Walk(cfg, s, next, Turn(h, GatePut(world.putOk)));
        if !world.putOk {
          return Acl.Refuse, next;
        }
        acl := acl[put.user := put];
        decision := Acl.Serve;
    }

    /** One append of keep, under the read lock. */
    method AppendRecord(ghost s: State, ghost path: Path, h: nat, msg: Message, ghost count: nat, ghost appended: nat, kind: Kind, ok: bool, time: int)
      returns (ghost next: Path)
      requires appended < 2 && kind == (if appended == 0 then FromUser else FromModel)
      requires At(s, path, h, msg, count, Keeping(appended))
      modifies `stores
      ensures At(s, next, h, msg, count, Keeping(if ok then appended + 1 else 2))
      ensures !ok ==> stores == old(stores)
      ensures ok ==> stores == Store(old(stores), cfg.StoreFor(msg.chat), Records(old(stores), cfg.StoreFor(msg.chat)) + {Kept(h, msg.user, kind, time)})
    {
      if ok {
        var ns := cfg.StoreFor(msg.chat);
        stores := Store(stores, ns, Records(stores, ns) + {Kept(h, msg.user, kind, time)});
      }
      next := Walk(cfg, s, path, Turn(h, KeepRecord(ok, time)));
    }

    /** use and keep: an answered turn of a named user in a named chat is kept, message and then answer,
        unless the user withdrew since `count` was read. */
    method Keep(ghost s: State, ghost path: Path, h: nat, msg: Message, count: nat, world: World) returns (ghost next: Path)
      requires At(s, path, h, msg, count, Answering)
      modifies `stores
      ensures At(s, next, h, msg, count, Replying(true))
      ensures Keeps(old(stores), stores, cfg.StoreFor(msg.chat), if MayStore(withdrawn, msg, count) then KeptBy(h, msg.user, world) else {})
    {
      if msg.user == "" || msg.chat == "" {
        next := Walk(cfg, s, path, Turn(h, NotKept(true)));
        return;
      }
      next := Walk(cfg, s, path, Turn(h, KeepBegin));
      if Withdrawals(withdrawn, msg.user) != count {
        return;
      }
      next := AppendRecord(s, next, h, msg, count, 0, FromUser, world.keepUser, world.keptAt);
      if world.keepUser {
        next := AppendRecord(s, next, h, msg, count, 1, FromModel, world.keepModel, world.keptAt);
      }
      next := Walk(cfg, s, next, Turn(h, KeepEnd));
    }

    /** answerRemembering: the message is buffered, answered, kept when answered, and its answer buffered. */
    method AnswerRemembering(ghost s: State, ghost path: Path, h: nat, msg: Message, count: nat, world: World) returns (reply: Reply, ghost next: Path)
      requires At(s, path, h, msg, count, Admitted(true)) && msg.turn.speakerId == msg.user
      requires world.outcome.Answered? && world.outcome.botTurn.Some? ==> world.outcome.botTurn.value.speakerId == ""
      modifies `convos, `stores
      ensures At(s, next, h, msg, count, Settling)
      ensures reply == ReplyTo(world.outcome) && convos == AnsweredConvos(cfg, old(convos), msg, world.outcome)
      ensures Keeps(old(stores), stores, cfg.StoreFor(msg.chat), Remembers(withdrawn, h, msg, count, world))
    {
      next := RememberUser(s, path, h, msg, count, true);
      if !world.outcome.Answered? {
        next := Walk(cfg, s, next, Turn(h, NotKept(false)));
        next := Walk(cfg, s, next, Turn(h, Reply(None)));
        reply := if world.outcome == Failed then Error else if world.outcome == AtCapacity then Capacity else Declined;
        return;
      }
      next := Keep(s, next, h, msg, count, world);
      var botTurn := world.outcome.botTurn;
      if botTurn.Some? {
        convos := Chats.Appended(convos, cfg.retain, msg.chat, botTurn.value);
      }
      next := Walk(cfg, s, next, Turn(h, Withdrawal.TurnAct.Reply(botTurn)));
      reply := Answer;
    }

    /** A message that is not answered is buffered all the same. */
    method Listen(ghost s: State, ghost path: Path, h: nat, msg: Message, ghost count: nat, readOk: bool) returns (ghost next: Path)
      requires At(s, path, h, msg, count, Admitted(false)) && msg.turn.speakerId == msg.user
      requires ConsentOf(acl, msg.user) == Acl.Granted
      modifies `convos
      ensures At(s, next, h, msg, count, Done(!readOk))
      ensures convos == Chats.Appended(old(convos), cfg.retain, msg.chat, msg.turn)
    {
      next := RememberUser(s, path, h, msg, count, false);
      next := PurgeIfWithdrawn(s, next, h, msg, count, readOk);
    }

    method Serve(ghost s: State, ghost path: Path, h: nat, msg: Message, count: nat, world: World) returns (reply: Reply, ghost next: Path)
      requires At(s, path, h, msg, count, Admitted(true)) && msg.turn.speakerId == msg.user
      requires world.outcome.Answered? && world.outcome.botTurn.Some? ==> world.outcome.botTurn.value.speakerId == ""
      requires ConsentOf(acl, msg.user) == Acl.Granted
      modifies `convos, `stores
      ensures At(s, next, h, msg, count, Done(!world.readOk))
      ensures reply == ReplyTo(world.outcome) && convos == AnsweredConvos(cfg, old(convos), msg, world.outcome)
      ensures Keeps(old(stores), stores, cfg.StoreFor(msg.chat), Remembers(withdrawn, h, msg, count, world))
    {
      reply, next := AnswerRemembering(s, path, h, msg, count, world);
      next := PurgeIfWithdrawn(s, next, h, msg, count, world.readOk);
    }

    method Admit(ghost s: State, h: nat, msg: Message, world: World) returns (count: nat, decision: Acl.Decision, ghost path: Path)
      requires Shows(s) && h !in s.handlers && h !in s.earlier && cfg.group(msg.chat)
      modifies `acl
      ensures count == Withdrawals(withdrawn, msg.user)
      ensures decision == Decided(VerdictOn(cfg, old(acl), msg, world), world)
      ensures acl == AclAfter(old(acl), VerdictOn(cfg, old(acl), msg, world), world)
      ensures At(s, path, h, msg, count, if decision == Acl.Serve then Admitted(true)
                                         else if decision in {Acl.LogOnly, Acl.RateLimited} then Admitted(false) else Done(false))
      ensures decision in {Acl.Serve, Acl.LogOnly, Acl.RateLimited} ==> ConsentOf(acl, msg.user) == Acl.Granted
    {
      path := Path([s], []);
      count := Withdrawals(withdrawn, msg.user);
      path := Walk(cfg, s, path, Arrive(h, msg.user, msg.chat, msg.directed));
      decision, path := Check(s, path, h, msg, count, world);
    }

    /** What the gate decides, carried out. */
    method Respond(ghost s: State, h: nat, msg: Message, world: World) returns (reply: Reply, ghost path: Path)
      requires Shows(s) && h !in s.handlers && h !in s.earlier && cfg.group(msg.chat) && msg.turn.speakerId == msg.user
      requires world.outcome.Answered? && world.outcome.botTurn.Some? ==> world.outcome.botTurn.value.speakerId == ""
      modifies `acl, `convos, `stores
      ensures path.Valid(cfg, s) && Shows(path.Last())
      ensures h in path.Last().handlers && path.Last().handlers[h].phase.Done?
      ensures acl == AclAfter(old(acl), VerdictOn(cfg, old(acl), msg, world), world)
      ensures var d := Decided(VerdictOn(cfg, old(acl), msg, world), world);
        && reply == ReplyOn(d, world.outcome) && convos == ConvosOn(cfg, old(convos), d, msg, world.outcome)
        && (d != Acl.Serve ==> stores == old(stores))
        && Keeps(old(stores), stores, cfg.StoreFor(msg.chat),
                 if d == Acl.Serve then Remembers(withdrawn, h, msg, Withdrawals(withdrawn, msg.user), world) else {})
    {
      var count, decision;
      count, decision, path := Admit(s, h, msg, world);
      match decision
      case Serve => reply, path := Serve(s, path, h, msg, count, world);
      case LogOnly =>
        path := Listen(s, path, h, msg, count, world.readOk);
        reply := Silent;
      case RateLimited =>
        path := Listen(s, path, h, msg, count, world.readOk);
        reply := Throttled;
      case Nudge => reply := Nudged;
      case Silent => reply := Silent;
      case Refuse => reply := TurnedAway;
    }

    /** A group message with nothing else running: every read and write it makes is a step of the
        protocol, in the protocol's order, and it ends with its turn done. Who is served, what is
        buffered and what is kept follow from the user's record, the message and the world alone. */
    method GroupTurn(ghost s: State, h: nat, msg: Message, world: World) returns (reply: Reply, ghost path: Path)
      requires Shows(s) && h !in s.handlers && h !in s.earlier && cfg.group(msg.chat) && msg.turn.speakerId == msg.user
      requires world.outcome.Answered? && world.outcome.botTurn.Some? ==> world.outcome.botTurn.value.speakerId == ""
      modifies `acl, `convos, `stores
      ensures path.Valid(cfg, s) && Shows(path.Last())
      ensures h in path.Last().handlers && path.Last().handlers[h].phase.Done?
      ensures acl == AclAfter(old(acl), VerdictOn(cfg, old(acl), msg, world), world)
      ensures var d := Decided(VerdictOn(cfg, old(acl), msg, world), world);
        && reply == ReplyOn(d, world.outcome) && convos == ConvosOn(cfg, old(convos), d, msg, world.outcome)
        && Keeps(old(stores), stores, cfg.StoreFor(msg.chat), if d == Acl.Serve then Remembers(withdrawn, h, msg, Withdrawals(withdrawn, msg.user), world) else {})
      ensures ConsentOf(old(acl), msg.user) != Acl.Granted ==>
        acl == old(acl) && convos == old(convos) && stores == old(stores) && reply in {Silent, Nudged, TurnedAway}
      ensures reply == Nudged ==> ConsentOf(old(acl), msg.user) == Acl.Unknown && msg.directed
      ensures ConsentOf(old(acl), msg.user) == Acl.Declined && world.getOk ==> reply == Silent
      ensures Consenting(cfg, old(acl), msg, world) && cfg.retain > 1 ==> msg.turn in Chats.Conv(convos, msg.chat)
      ensures forall chat :: chat != msg.chat ==> Chats.Conv(convos, chat) == Chats.Conv(old(convos), chat)
      ensures reply == Throttled <==>
        world.getOk && msg.directed && ConsentOf(old(acl), msg.user) == Acl.Granted && !Acl.HasRoom(Acl.Lookup(old(acl), msg.user), cfg.defTier, world.now)
      ensures ServedAnswer(cfg, old(acl), msg, world.(outcome := Outcome.Answered(None))) ==>
        && (world.outcome == Failed ==> reply == Error) && (world.outcome == AtCapacity ==> reply == Capacity)
        && (world.outcome == Outcome.Refused ==> reply == Declined)
      ensures ServedAnswer(cfg, old(acl), msg, world) && cfg.retain > 1 && world.outcome.botTurn.Some? ==>
        EndsWith(Chats.Conv(convos, msg.chat), [msg.turn, world.outcome.botTurn.value])
      ensures ServedAnswer(cfg, old(acl), msg, world) ==>
        && reply == Answer
        && (world.keepUser ==> Stored(stores, cfg.StoreFor(msg.chat), Kept(h, msg.user, FromUser, world.keptAt)))
        && (world.keepUser && world.keepModel ==> Stored(stores, cfg.StoreFor(msg.chat), Kept(h, msg.user, FromModel, world.keptAt)))
      ensures forall ns, r :: Stored(old(stores), ns, r) ==> Stored(stores, ns, r)
      ensures forall ns, r :: Stored(stores, ns, r) && !Stored(old(stores), ns, r) ==>
        ns == cfg.StoreFor(msg.chat) && r.turn == h && r.subject == msg.user && ServedAnswer(cfg, old(acl), msg, world)
    {
      ghost var d := Decided(VerdictOn(cfg, acl, msg, world), world);
      DecidedBy(cfg, acl, msg, world);
      BufferedOn(cfg, convos, d, msg, world.outcome);
      reply, path := Respond(s, h, msg, world);
    }

    /** The path ends in a state the instance shows, with withdrawal `w` where `p` says. */
    ghost predicate Withdraws(s: State, path: Path, w: nat, user: string, p: Progress)
      reads this
    {
      && path.Valid(cfg, s) && Shows(path.Last())
      && w in path.Last().withdrawals && path.Last().withdrawals[w] == Withdrawing(user, p)
    }

    method EraseOne(ghost s: State, ghost path: Path, w: nat, user: string, ghost count: nat, ghost todo: set<string>,
                    ghost failed: set<string>, ns: string, fails: set<string>, lost: set<Kept>) returns (ok: bool, ghost next: Path)
      requires Withdraws(s, path, w, user, Deleting(count, todo, failed)) && ns in todo
      modifies `stores
      ensures ok == (ns in cfg.open && ns !in fails) && path.steps <= next.steps
      ensures Withdraws(s, next, w, user, Deleting(count, todo - {ns}, if ok then failed else failed + {ns}))
      ensures Erases(old(stores), stores, {ns} * cfg.open, user, fails, lost)
    {
      stores := WithdrawStores(cfg, stores, user, Delete(ns, ns !in fails, lost));
      next := Walk(cfg, s, path, Withdraw(w, Delete(ns, ns !in fails, lost)));
      ok := ns in cfg.open && ns !in fails;
    }

    ghost method ListAll(s: State, path: Path, w: nat, user: string, count: nat) returns (next: Path)
      requires Withdraws(s, path, w, user, CountedUp(count))
      ensures Withdraws(s, next, w, user, Deleting(count, recorded, {})) && path.steps <= next.steps
    {
      next := Walk(cfg, s, path, Withdraw(w, ListNamespaces));
    }

    /** Eraser.Erase, from the count on: every recorded namespace is tried, whichever fail. */
    method EraseAll(ghost s: State, ghost path: Path, w: nat, user: string, count: nat, fails: set<string>, lost: set<Kept>)
      returns (failed: set<string>, ghost next: Path)
      requires Withdraws(s, path, w, user, CountedUp(count))
      modifies `stores
      ensures Withdraws(s, next, w, user, Deleting(count, {}, failed)) && path.steps <= next.steps
      ensures failed == Failing(recorded, cfg.open, fails)
      ensures Erases(old(stores), stores, recorded * cfg.open, user, fails, lost)
    {
      next := ListAll(s, path, w, user, count);
      var todo := recorded;
      ghost var tried: set<string> := {};
      failed := {};
      while todo != {}
        invariant tried !! todo && tried + todo == recorded && path.steps <= next.steps
        invariant Withdraws(s, next, w, user, Deleting(count, todo, failed))
        invariant failed == Failing(tried, cfg.open, fails)
        invariant Erases(old(stores), stores, tried * cfg.open, user, fails, lost)
        decreases |todo|
      {
        var ns :| ns in todo;
        ghost var before := stores;
        var ok;
        ok, next := EraseOne(s, next, w, user, count, todo, failed, ns, fails, lost);
        EraseNext(old(stores), before, stores, tried, ns, cfg.open, user, fails, lost);
        todo, tried := todo - {ns}, tried + {ns};
        failed := if ok then failed else failed + {ns};
      }
      assert tried == recorded;
    }

    /** Consent off, the buffer purged and the count raised. */
    method TurnOffAndCount(ghost s: State, w: nat, user: string) returns (ghost path: Path)
      requires Shows(s) && w !in s.withdrawals && !ReadLocked(s)
      modifies `acl, `convos, `withdrawn
      ensures path.steps != [] && path.steps[0] == TurnOff(w, user, true)
      ensures Withdraws(s, path, w, user, CountedUp(Withdrawals(withdrawn, user)))
      ensures acl == Acl.WithConsent(old(acl), user, Acl.Declined)
      ensures convos == Chats.UserPurged(old(convos), cfg.retain, user)
      ensures withdrawn == CountedOnce(old(withdrawn), user)
    {
      path := Walk(cfg, s, Path([s], []), TurnOff(w, user, true));
      acl := Acl.WithConsent(acl, user, Acl.Declined);
      convos := Chats.UserPurged(convos, cfg.retain, user);
      path := Walk(cfg, s, path, Withdraw(w, PurgeBuffer));
      withdrawn := CountedOnce(withdrawn, user);
      path := Walk(cfg, s, path, Withdraw(w, CountUp));
    }

    /** The consent command's removal with no keep under way: consent off, the buffer purged, the count
        raised and every namespace tried, in the protocol's order. It is acknowledged exactly when none of
        that failed, and then nothing of the user is left in any recorded namespace. */
    method RemoveConsent(ghost s: State, w: nat, user: string, setOk: bool, fails: set<string>, lost: set<Kept>) returns (erased: bool, ghost path: Path)
      requires Shows(s) && w !in s.withdrawals && !ReadLocked(s)
      modifies `acl, `convos, `withdrawn, `stores
      ensures path.Valid(cfg, s) && Shows(path.Last()) && path.steps != [] && path.steps[0] == TurnOff(w, user, setOk)
      ensures !setOk ==> !erased && acl == old(acl) && convos == old(convos) && withdrawn == old(withdrawn) && stores == old(stores)
      ensures setOk ==>
        && acl == Acl.WithConsent(old(acl), user, Acl.Declined)
        && convos == Chats.UserPurged(old(convos), cfg.retain, user)
        && withdrawn == CountedOnce(old(withdrawn), user)
      ensures setOk ==> Erases(old(stores), stores, recorded * cfg.open, user, fails, lost)
      ensures setOk ==> ConsentOf(acl, user) == Acl.Declined && forall u :: u != user ==> Acl.Lookup(acl, u) == Acl.Lookup(old(acl), u)
      ensures setOk && user != "" && cfg.retain > 0 ==> forall chat, t :: t in Chats.Conv(convos, chat) ==> t.speakerId != user
      ensures erased <==> setOk && forall ns :: ns in recorded ==> ns in cfg.open && ns !in fails
      ensures forall ns, r :: Stored(stores, ns, r) ==> Stored(old(stores), ns, r)
      ensures forall ns, r :: Stored(old(stores), ns, r) && r.subject != user ==> Stored(stores, ns, r)
      ensures erased ==> Succeeded(path.Last(), w, user) && forall ns, r :: ns in recorded && Stored(stores, ns, r) ==> r.subject != user
    {
      if !setOk {
        path := Walk(cfg, s, Path([s], []), TurnOff(w, user, false));
        return false, path;
      }
      path := TurnOffAndCount(s, w, user);
      var failed;
      ghost var before := stores;
      failed, path := EraseAll(s, path, w, user, Withdrawals(withdrawn, user), fails, lost);
      erased := failed == {};
      assert erased <==> forall ns :: ns in recorded ==> ns in cfg.open && ns !in fails by {
        assert forall ns :: ns in failed <==> ns in recorded && !(ns in cfg.open && ns !in fails);
      }
      OnlyTheirs(before, stores, recorded * cfg.open, user, fails, lost);
      if erased {
        NothingLeft(before, stores, recorded, cfg.open, user, fails, lost);
      }
    }
  }
}
