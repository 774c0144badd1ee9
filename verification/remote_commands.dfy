/** Remote commands: an operator's request, the charger's answer, and the outcome observed later.

    Three flows race: the answer to the call, the inbound start and stop messages, and the
    confirmation timers. Every await in the services is a task waiting in `tasks`; each task runs
    as one step, in any order. Command ids are handed out in order, which stands for fresh ones. */
module RemoteCommands {
  import opened Common
  import opened Sessions

  type CommandId = nat

  datatype Kind = StartCommand | StopCommand | ResetCommand | UnlockCommand | AvailabilityCommand

  datatype State = Requested | Sent | Accepted | Rejected | TimedOut | Confirmed | Unconfirmed

  /** watched is not a column: it says that whoever asked registers the command once it is accepted. */
  datatype Command = Command(
    station: StationId, connector: Option<ConnectorId>, session: Option<SessionId>,
    kind: Kind, state: State, requestedAt: int, resolvedAt: Option<int>, watched: bool)

  datatype Credential = Unusable | Usable(idTag: string)

  /** available is whether the named connector's own status is AVAILABLE; registers is whether the
      caller registers an accepted command with the confirmation service, as the two routes do. */
  datatype Request = Request(
    station: StationId, connector: Option<ConnectorId>, session: Option<SessionId>,
    kind: Kind, credential: Option<Credential>, available: bool, registers: bool)

  datatype Refusal =
    | SessionMissing | ConnectorRequired | CredentialRequired | CredentialUnusable
    | ConnectorUnavailable | ConnectorBusy | IdTagTooLong | SessionRequired | NotStoppable
    | CommandInFlight

  datatype Outcome = ChargerAccepts | ChargerRejects | NoAnswer

  datatype Task =
    | Dispatch(cmd: CommandId)
    | AwaitAnswer(cmd: CommandId)
    | Settle(cmd: CommandId, outcome: Outcome)
    | RegisterAccepted(cmd: CommandId)
    | CheckNow(cmd: CommandId)
    | ObserveStart(station: StationId, connector: ConnectorId, session: SessionId)
    | ObserveStop(session: SessionId)
    | Confirm(cmd: CommandId, link: Option<SessionId>)
    | Expire(cmd: CommandId)

  /** What a running task finds out: whether the station can be sent to, the charger's answer,
      the row its lookup returns. */
  datatype Choice = Choice(sendable: bool, outcome: Outcome, session: Option<SessionId>, command: Option<CommandId>)

  datatype Event =
    | Ask(request: Request)
    | Continue(task: Task, choice: Choice)
    | TimerFires(cmd: CommandId)
    | StartTransaction(input: CreateInput)
    | StopTransaction(session: SessionId, meterStop: int, reason: Reason, endedAt: int)
    | SessionChange(op: Op)
    | ProcessRestart

  datatype System = System(
    tables: Tables, commands: map<CommandId, Command>, next: CommandId,
    timers: set<CommandId>, tasks: multiset<Task>)

  const INITIALLY := System(NO_SESSIONS, map[], 0, {}, multiset{})

  const ID_TAG_MAX := 20

  function Allowed(from: State): set<State> {
    match from
    case Requested => {Sent, Rejected}
    case Sent => {Accepted, Rejected, TimedOut}
    case Accepted => {Confirmed, Unconfirmed}
    case Rejected => {}
    case TimedOut => {}
    case Confirmed => {}
    case Unconfirmed => {}
  }

  predicate Resolved(s: State) {
    s == Rejected || s == TimedOut || s == Confirmed || s == Unconfirmed
  }

  // ---------------------------------------------------------------- requesting

  /** A station-wide command clashes with everything on its station. */
  predicate Clash(a: Command, b: Command) {
    a.station == b.station && (a.connector.None? || b.connector.None? || a.connector == b.connector)
  }

  /** A request that names a session but no connector gets the session's connector. */
  function Asked(t: Tables, r: Request, now: int): Command {
    var connector := if r.connector.None? && r.session.Some? && r.session.value in t.sessions
                     then Some(t.sessions[r.session.value].connector) else r.connector;
    Command(r.station, connector, r.session, r.kind, Requested, now, None, r.registers)
  }

  ghost predicate InFlight(commands: map<CommandId, Command>, c: Command) {
    exists i :: i in commands && !Resolved(commands[i].state) && Clash(commands[i], c)
  }

  ghost function StartRefusal(t: Tables, r: Request, connector: Option<ConnectorId>): Option<Refusal> {
    if connector.None? then Some(ConnectorRequired)
    else if r.credential.None? then Some(CredentialRequired)
    else if r.credential.value.Unusable? then Some(CredentialUnusable)
    else if !r.available then Some(ConnectorUnavailable)
    else if Occupied(t, connector.value) then Some(ConnectorBusy)
    else if |r.credential.value.idTag| > ID_TAG_MAX then Some(IdTagTooLong)
    else None
  }

  /** The first check that fails, in the order the service makes them. */
  ghost function RefusalOf(y: System, r: Request, now: int): Option<Refusal> {
    var connector := Asked(y.tables, r, now).connector;
    if r.session.Some?
       && (r.session.value !in y.tables.sessions || y.tables.sessions[r.session.value].station != r.station)
    then Some(SessionMissing)
    else if r.kind.StartCommand? && StartRefusal(y.tables, r, connector).Some? then StartRefusal(y.tables, r, connector)
    else if r.kind.StopCommand? && r.session.None? then Some(SessionRequired)
    else if r.kind.StopCommand? && !Stoppable(y.tables.sessions[r.session.value].status) then Some(NotStoppable)
    else if InFlight(y.commands, Asked(y.tables, r, now)) then Some(CommandInFlight)
    else None
  }

  /** What being admitted means, whatever order the checks come in. */
  ghost predicate Admissible(y: System, r: Request, now: int) {
    && (r.session.Some? ==>
          r.session.value in y.tables.sessions && y.tables.sessions[r.session.value].station == r.station)
    && (r.kind.StartCommand? ==> StartAdmissible(y.tables, r, Asked(y.tables, r, now).connector))
    && (r.kind.StopCommand? ==> r.session.Some? && !Terminal(y.tables.sessions[r.session.value].status))
    && forall i :: i in y.commands && !Resolved(y.commands[i].state) ==>
         var c := Asked(y.tables, r, now).connector;
         y.commands[i].station != r.station
         || (y.commands[i].connector.Some? && c.Some? && y.commands[i].connector.value != c.value)
  }

  /** A free, available connector and a usable credential whose tag fits the protocol. */
  ghost predicate StartAdmissible(t: Tables, r: Request, connector: Option<ConnectorId>) {
    && connector.Some? && r.available && (forall s :: s in t.sessions ==> !Occupies(t.sessions[s], connector.value))
    && r.credential.Some? && r.credential.value.Usable? && |r.credential.value.idTag| <= 20
  }

  /** Each check by itself. */
  ghost predicate Fails(y: System, r: Request, now: int, check: Refusal) {
    var connector := Asked(y.tables, r, now).connector;
    match check
    case SessionMissing =>
      r.session.Some?
      && (r.session.value !in y.tables.sessions || y.tables.sessions[r.session.value].station != r.station)
    case ConnectorRequired => r.kind.StartCommand? && connector.None?
    case CredentialRequired => r.kind.StartCommand? && r.credential.None?
    case CredentialUnusable => r.kind.StartCommand? && r.credential == Some(Unusable)
    case ConnectorUnavailable => r.kind.StartCommand? && !r.available
    case ConnectorBusy =>
      r.kind.StartCommand? && connector.Some?
      && exists s :: s in y.tables.sessions && y.tables.sessions[s].connector == connector.value
                     && !Terminal(y.tables.sessions[s].status)
    case IdTagTooLong =>
      r.kind.StartCommand? && r.credential.Some? && r.credential.value.Usable? && |r.credential.value.idTag| > 20
    case SessionRequired => r.kind.StopCommand? && r.session.None?
    case NotStoppable =>
      r.kind.StopCommand? && r.session.Some? && r.session.value in y.tables.sessions
      && Terminal(y.tables.sessions[r.session.value].status)
    case CommandInFlight => InFlight(y.commands, Asked(y.tables, r, now))
  }

  function CheckRank(check: Refusal): nat {
    match check
    case SessionMissing => 0
    case ConnectorRequired => 1
    case CredentialRequired => 2
    case CredentialUnusable => 3
    case ConnectorUnavailable => 4
    case ConnectorBusy => 5
    case IdTagTooLong => 6
    case SessionRequired => 7
    case NotStoppable => 8
    case CommandInFlight => 9
  }

  ghost predicate FirstFailing(y: System, r: Request, now: int, check: Refusal) {
    Fails(y, r, now, check) && forall other :: CheckRank(other) < CheckRank(check) ==> !Fails(y, r, now, other)
  }

  /** A request is refused for a reason exactly when that check fails and every check before it passes. */
  lemma RefusedForIff(y: System, r: Request, now: int, check: Refusal)
    requires Sessions.Valid(y.tables)
    ensures RefusalOf(y, r, now) == Some(check) <==> FirstFailing(y, r, now, check)
  {
    if r.session.Some? && r.session.value in y.tables.sessions {
      assert RowWise(y.tables.sessions[r.session.value], y.tables.rows[r.session.value]);
    }
    FirstChecks(y, r, now);
  }

  lemma FirstChecks(y: System, r: Request, now: int)
    requires r.session.Some? && r.session.value in y.tables.sessions ==>
      Storable(y.tables.sessions[r.session.value].status)
    ensures var refusal := RefusalOf(y, r, now);
      && (refusal.Some? ==> Fails(y, r, now, refusal.value))
      && forall other :: (refusal.Some? ==> CheckRank(other) < CheckRank(refusal.value)) ==> !Fails(y, r, now, other)
  {
  }

  /** With valid tables nothing is refused exactly when the request is admissible. */
  lemma AdmittedIff(y: System, r: Request, now: int)
    requires Sessions.Valid(y.tables)
    ensures RefusalOf(y, r, now) == None <==> Admissible(y, r, now)
  {
    if r.session.Some? && r.session.value in y.tables.sessions {
      assert RowWise(y.tables.sessions[r.session.value], y.tables.rows[r.session.value]);
    }
  }

  predicate Stoppable(s: Status) {
    s == Active || s == Offline || s == Suspended
  }

  // ---------------------------------------------------------------- the steps

  function Moved(c: Command, target: State, now: int): Command {
    c.(state := target, resolvedAt := if Resolved(target) then Some(now) else c.resolvedAt)
  }

  ghost predicate CanMove(y: System, cmd: CommandId, target: State) {
    cmd in y.commands && target in Allowed(y.commands[cmd].state)
  }

  ghost function PutCommand(y: System, cmd: CommandId, c: Command): System {
    y.(commands := y.commands[cmd := c])
  }

  /** A transition the table does not allow is refused and changes nothing. */
  ghost function Persist(y: System, cmd: CommandId, target: State, now: int): System {
    if CanMove(y, cmd, target) then PutCommand(y, cmd, Moved(y.commands[cmd], target, now)) else y
  }

  ghost function Add(y: System, task: Task): System {
    y.(tasks := y.tasks + multiset{task})
  }

  ghost function Without(y: System, task: Task): System {
    y.(tasks := y.tasks - multiset{task})
  }

  predicate StartEvidence(c: Command, s: Session) {
    c.kind.StartCommand? && c.connector == Some(s.connector) && s.status == Active && s.startedAt >= c.requestedAt
  }

  predicate AwaitsStart(c: Command, station: StationId, connector: ConnectorId) {
    c.station == station && c.connector == Some(connector) && c.kind.StartCommand? && c.state == Accepted
  }

  predicate AwaitsStop(c: Command, session: SessionId) {
    c.session == Some(session) && c.kind.StopCommand? && c.state == Accepted
  }

  /** The lookups return some matching row whenever there is one. */
  ghost predicate ValidChoice(y: System, task: Task, choice: Choice) {
    match task
    case CheckNow(cmd) =>
      cmd in y.commands && y.commands[cmd].kind.StartCommand? ==>
        (match choice.session
         case Some(s) => s in y.tables.sessions && StartEvidence(y.commands[cmd], y.tables.sessions[s])
         case None => forall s :: s in y.tables.sessions ==> !StartEvidence(y.commands[cmd], y.tables.sessions[s]))
    case ObserveStart(station, connector, _) =>
      (match choice.command
       case Some(c) => c in y.commands && AwaitsStart(y.commands[c], station, connector)
       case None => forall c :: c in y.commands ==> !AwaitsStart(y.commands[c], station, connector))
    case ObserveStop(session) =>
      (match choice.command
       case Some(c) => c in y.commands && AwaitsStop(y.commands[c], session)
       case None => forall c :: c in y.commands ==> !AwaitsStop(y.commands[c], session))
    case _ => true
  }

  predicate CompletedIn(t: Tables, session: SessionId) {
    session in t.sessions && t.sessions[session].status == Completed
  }

  /** The confirmed row; a session is linked only where none was named before. */
  function ConfirmedAs(c: Command, link: Option<SessionId>, now: int): Command {
    var c' := Moved(c, Confirmed, now);
    if c.session.None? then c'.(session := link) else c'
  }

  /** One task's effect; the task itself has already left the queue. */
  ghost function Perform(y: System, task: Task, choice: Choice, now: int): System {
    match task
    case Dispatch(cmd) =>
      if choice.sendable then Add(y, AwaitAnswer(cmd)) else Persist(y, cmd, Rejected, now)
    case AwaitAnswer(cmd) =>
      if CanMove(y, cmd, Sent) then Add(Persist(y, cmd, Sent, now), Settle(cmd, choice.outcome)) else y
    case Settle(cmd, outcome) =>
      (match outcome
       case ChargerAccepts =>
         if !CanMove(y, cmd, Accepted) then y
         else if y.commands[cmd].watched then Add(Persist(y, cmd, Accepted, now), RegisterAccepted(cmd))
         else Persist(y, cmd, Accepted, now)
       case ChargerRejects => Persist(y, cmd, Rejected, now)
       case NoAnswer => Persist(y, cmd, TimedOut, now))
    case RegisterAccepted(cmd) => Add(y.(timers := y.timers + {cmd}), CheckNow(cmd))
    case CheckNow(cmd) =>
      if cmd !in y.commands then y
      else if y.commands[cmd].kind.StartCommand? then
        if choice.session.Some? then Add(y, Confirm(cmd, choice.session)) else y
      else if y.commands[cmd].kind.StopCommand? && y.commands[cmd].session.Some?
              && CompletedIn(y.tables, y.commands[cmd].session.value)
      then Add(y, Confirm(cmd, None))
      else y
    case ObserveStart(_, _, session) =>
      if choice.command.Some? then Add(y, Confirm(choice.command.value, Some(session))) else y
    case ObserveStop(_) =>
      if choice.command.Some? then Add(y, Confirm(choice.command.value, None)) else y
    case Confirm(cmd, link) =>
      var y' := y.(timers := y.timers - {cmd});
      if CanMove(y, cmd, Confirmed) then PutCommand(y', cmd, ConfirmedAs(y.commands[cmd], link, now)) else y'
    case Expire(cmd) => Persist(y, cmd, Unconfirmed, now)
  }

  /** The stop handler ignores sessions already COMPLETED or FAILED; stopping a CANCELLED one is
      refused by the session service, so nothing is observed. */
  ghost predicate StopGoesThrough(t: Tables, stop: Op, now: int)
    requires stop.Stop?
  {
    stop.stopped in t.sessions && t.sessions[stop.stopped].status != Completed
    && t.sessions[stop.stopped].status != Failed && Answer(t, stop, now).Gives?
  }

  /** Sessions are created and stopped only by the two transaction messages. */
  predicate OtherChange(op: Op) {
    !op.Create? && !op.Stop? && Callable(op)
  }

  ghost predicate Enabled(y: System, e: Event) {
    match e
    case Continue(task, choice) => task in y.tasks && ValidChoice(y, task, choice)
    case TimerFires(cmd) => cmd in y.timers
    case SessionChange(op) => OtherChange(op)
    case _ => true
  }

  ghost function Step(y: System, e: Event, now: int): System {
    if !Enabled(y, e) then y else
    match e
    case Ask(r) =>
      if RefusalOf(y, r, now).Some? then y
      else Add(PutCommand(y, y.next, Asked(y.tables, r, now)).(next := y.next + 1), Dispatch(y.next))
    case Continue(task, choice) => Perform(Without(y, task), task, choice, now)
    case TimerFires(cmd) => Add(y.(timers := y.timers - {cmd}), Expire(cmd))
    case StartTransaction(input) =>
      Add(y.(tables := Apply(y.tables, Create(input), now)),
          ObserveStart(input.station, input.connector, Answer(y.tables, Create(input), now).id))
    case StopTransaction(session, meterStop, reason, endedAt) =>
      var stop := Stop(session, meterStop, reason, endedAt);
      if StopGoesThrough(y.tables, stop, now)
      then Add(y.(tables := Apply(y.tables, stop, now)), ObserveStop(session)) else y
    case SessionChange(op) => y.(tables := Apply(y.tables, op, now))
    case ProcessRestart => y.(timers := {}, tasks := multiset{})
  }

  // ---------------------------------------------------------------- what every step keeps

  /** No two commands in flight clash. */
  ghost predicate Exclusive(commands: map<CommandId, Command>) {
    forall i, j :: i in commands && j in commands && i != j && !Resolved(commands[i].state)
      && !Resolved(commands[j].state)
      ==> !Clash(commands[i], commands[j])
  }

  ghost predicate CommandSound(t: Tables, c: Command) {
    && (c.resolvedAt.Some? <==> Resolved(c.state))
    && (c.kind.StartCommand? ==> c.connector.Some?)
    && (c.kind.StopCommand? ==> c.session.Some?)
    && (c.session.Some? ==> c.session.value in t.sessions && c.connector.Some?)
    && (c.kind.StopCommand? ==> t.sessions[c.session.value].station == c.station)
    && (c.kind.StopCommand? && c.state == Confirmed ==> CompletedIn(t, c.session.value))
  }

  ghost predicate TaskSound(t: Tables, commands: map<CommandId, Command>, task: Task) {
    match task
    case ObserveStart(_, connector, s) => s in t.sessions && t.sessions[s].connector == connector
    case ObserveStop(s) => CompletedIn(t, s)
    case Confirm(cmd, link) =>
      && cmd in commands
      && (match commands[cmd].kind
          case StartCommand => link.Some? && link.value in t.sessions
                               && commands[cmd].connector == Some(t.sessions[link.value].connector)
          case StopCommand => commands[cmd].session.Some? && CompletedIn(t, commands[cmd].session.value)
          case _ => false)
    case _ => task.cmd in commands
  }

  ghost predicate Sound(y: System) {
    && Sessions.Valid(y.tables) && Exclusive(y.commands)
    && (forall cmd :: cmd in y.commands ==> cmd < y.next && CommandSound(y.tables, y.commands[cmd]))
    && (forall cmd :: cmd in y.timers ==> cmd in y.commands)
    && (forall task :: task in y.tasks ==> TaskSound(y.tables, y.commands, task))
  }

  lemma AddSound(y: System, task: Task)
    requires Sound(y) && TaskSound(y.tables, y.commands, task)
    ensures Sound(Add(y, task))
  {
  }

  lemma PutSound(y: System, cmd: CommandId, c: Command)
    requires Sound(y) && cmd in y.commands && CommandSound(y.tables, c)
    requires c.station == y.commands[cmd].station && c.connector == y.commands[cmd].connector
    requires c.kind == y.commands[cmd].kind
    requires y.commands[cmd].session.Some? ==> c.session == y.commands[cmd].session
    requires Resolved(y.commands[cmd].state) ==> Resolved(c.state)
    ensures Sound(PutCommand(y, cmd, c))
  {
    var y' := PutCommand(y, cmd, c);
    forall task | task in y'.tasks ensures TaskSound(y'.tables, y'.commands, task) {
      assert TaskSound(y.tables, y.commands, task);
    }
  }

  lemma PersistSound(y: System, cmd: CommandId, target: State, now: int)
    requires Sound(y) && target != Confirmed
    ensures Sound(Persist(y, cmd, target, now))
  {
    if CanMove(y, cmd, target) { PutSound(y, cmd, Moved(y.commands[cmd], target, now)); }
  }

  lemma TablesSound(y: System, t': Tables)
    requires Sound(y) && Sessions.Valid(t') && Preserves(y.tables, t')
    ensures Sound(y.(tables := t'))
  {
    var y' := y.(tables := t');
    forall cmd | cmd in y.commands ensures CommandSound(t', y.commands[cmd]) {
      var c := y.commands[cmd];
      assert CommandSound(y.tables, c);
      if c.session.Some? { assert KeepsRow(y.tables, t', c.session.value); }
    }
    forall task | task in y.tasks ensures TaskSound(t', y.commands, task) {
      TaskStaysSound(y, t', task);
    }
  }

  lemma TaskStaysSound(y: System, t': Tables, task: Task)
    requires Preserves(y.tables, t') && TaskSound(y.tables, y.commands, task)
    ensures TaskSound(t', y.commands, task)
  {
    match task
    case ObserveStart(_, _, s) => assert KeepsRow(y.tables, t', s);
    case ObserveStop(s) => assert KeepsRow(y.tables, t', s);
    case Confirm(cmd, link) =>
      if y.commands[cmd].kind.StartCommand? { assert KeepsRow(y.tables, t', link.value); }
      else { assert KeepsRow(y.tables, t', y.commands[cmd].session.value); }
    case _ =>
  }

  lemma AskedExclusive(y: System, r: Request, now: int)
    requires Sound(y) && RefusalOf(y, r, now) == None
    ensures Exclusive(y.commands[y.next := Asked(y.tables, r, now)])
  {
    var c := Asked(y.tables, r, now);
    assert forall i :: i in y.commands && !Resolved(y.commands[i].state) ==>
      !Clash(y.commands[i], c) && !Clash(c, y.commands[i]);
  }

  lemma AskedSound(y: System, r: Request, now: int)
    requires Sound(y) && RefusalOf(y, r, now) == None
    ensures CommandSound(y.tables, Asked(y.tables, r, now))
  {
  }

  /** A new command leaves everything waiting as it was. */
  lemma NewCommandSound(y: System, c: Command)
    requires Sound(y) && CommandSound(y.tables, c) && Exclusive(y.commands[y.next := c])
    ensures Sound(PutCommand(y, y.next, c).(next := y.next + 1))
  {
    var y' := PutCommand(y, y.next, c).(next := y.next + 1);
    assert y.next !in y.commands;
    forall task | task in y'.tasks ensures TaskSound(y'.tables, y'.commands, task) {
      assert TaskSound(y.tables, y.commands, task);
    }
  }

  lemma AskSound(y: System, r: Request, now: int)
    requires Sound(y)
    ensures Sound(Step(y, Ask(r), now))
  {
    if RefusalOf(y, r, now).None? {
      var c := Asked(y.tables, r, now);
      AskedExclusive(y, r, now);
      AskedSound(y, r, now);
      NewCommandSound(y, c);
      AddSound(PutCommand(y, y.next, c).(next := y.next + 1), Dispatch(y.next));
    }
  }

  lemma WithoutSound(y: System, task: Task)
    requires Sound(y)
    ensures Sound(Without(y, task))
  {
  }

  lemma ConfirmSound(y: System, cmd: CommandId, link: Option<SessionId>, now: int)
    requires Sound(y) && TaskSound(y.tables, y.commands, Confirm(cmd, link))
    ensures Sound(Perform(y, Confirm(cmd, link), Choice(true, NoAnswer, None, None), now))
  {
    if CanMove(y, cmd, Confirmed) {
      PutSound(y.(timers := y.timers - {cmd}), cmd, ConfirmedAs(y.commands[cmd], link, now));
    }
  }

  lemma MoveAndAddSound(y: System, cmd: CommandId, target: State, task: Task, now: int)
    requires Sound(y) && CanMove(y, cmd, target) && target != Confirmed
    requires (task.Settle? || task.RegisterAccepted?) && task.cmd == cmd
    ensures Sound(Add(Persist(y, cmd, target, now), task))
  {
    PersistSound(y, cmd, target, now);
    AddSound(Persist(y, cmd, target, now), task);
  }

  lemma LookupSound(y: System, task: Task, choice: Choice, now: int)
    requires Sound(y) && TaskSound(y.tables, y.commands, task) && ValidChoice(y, task, choice)
    requires task.CheckNow? || task.ObserveStart? || task.ObserveStop?
    ensures Sound(Perform(y, task, choice, now))
  {
    var y' := Perform(y, task, choice, now);
    if y' != y {
      var cmd := if task.CheckNow? then task.cmd else choice.command.value;
      var link := match task case CheckNow(_) => choice.session case ObserveStart(_, _, s) => Some(s) case _ => None;
      assert CommandSound(y.tables, y.commands[cmd]);
      AddSound(y, Confirm(cmd, if y.commands[cmd].kind.StartCommand? then link else None));
    }
  }

  lemma PerformSound(y: System, task: Task, choice: Choice, now: int)
    requires Sound(y) && TaskSound(y.tables, y.commands, task) && ValidChoice(y, task, choice)
    ensures Sound(Perform(y, task, choice, now))
  {
    match task
    case Dispatch(cmd) =>
      if choice.sendable { AddSound(y, AwaitAnswer(cmd)); } else { PersistSound(y, cmd, Rejected, now); }
    case AwaitAnswer(cmd) =>
      if CanMove(y, cmd, Sent) { MoveAndAddSound(y, cmd, Sent, Settle(cmd, choice.outcome), now); }
    case Settle(cmd, outcome) =>
      if outcome.ChargerAccepts? {
        if CanMove(y, cmd, Accepted) {
          PersistSound(y, cmd, Accepted, now);
          MoveAndAddSound(y, cmd, Accepted, RegisterAccepted(cmd), now);
        }
      } else {
        PersistSound(y, cmd, if outcome.NoAnswer? then TimedOut else Rejected, now);
      }
    case RegisterAccepted(cmd) => AddSound(y.(timers := y.timers + {cmd}), CheckNow(cmd));
    case Confirm(cmd, link) => ConfirmSound(y, cmd, link, now);
    case Expire(cmd) => PersistSound(y, cmd, Unconfirmed, now);
    case _ => LookupSound(y, task, choice, now);
  }

  lemma MessageSound(y: System, op: Op, now: int)
    requires Sound(y) && Callable(op)
    ensures Sound(y.(tables := Apply(y.tables, op, now)))
  {
    ApplyValid(y.tables, op, now);
    ApplyPreserves(y.tables, op, now);
    TablesSound(y, Apply(y.tables, op, now));
  }

  /** Where the created or kept session ends up. */
  lemma CreateGives(t: Tables, input: CreateInput, now: int)
    requires Sessions.Valid(t)
    ensures var id := Answer(t, Create(input), now).id;
      id in Apply(t, Create(input), now).sessions
        && Apply(t, Create(input), now).sessions[id].connector == input.connector
  {
  }

  lemma StartMessageSound(y: System, input: CreateInput, now: int)
    requires Sound(y)
    ensures Sound(Step(y, StartTransaction(input), now))
  {
    MessageSound(y, Create(input), now);
    CreateGives(y.tables, input, now);
    AddSound(y.(tables := Apply(y.tables, Create(input), now)),
             ObserveStart(input.station, input.connector, Answer(y.tables, Create(input), now).id));
  }

  lemma StopMessageSound(y: System, stop: Op, now: int)
    requires Sound(y) && stop.Stop? && StopGoesThrough(y.tables, stop, now)
    ensures Sound(Add(y.(tables := Apply(y.tables, stop, now)), ObserveStop(stop.stopped)))
  {
    MessageSound(y, stop, now);
    AddSound(y.(tables := Apply(y.tables, stop, now)), ObserveStop(stop.stopped));
  }

  lemma {:induction false} StepSound(y: System, e: Event, now: int)
    requires Sound(y)
    ensures Sound(Step(y, e, now))
  {
    if !Enabled(y, e) { return; }
    match e
    case Ask(r) => AskSound(y, r, now);
    case Continue(task, choice) =>
      WithoutSound(y, task);
      PerformSound(Without(y, task), task, choice, now);
    case TimerFires(cmd) => AddSound(y.(timers := y.timers - {cmd}), Expire(cmd));
    case StartTransaction(input) => StartMessageSound(y, input, now);
    case StopTransaction(session, meterStop, reason, endedAt) =>
      var stop := Stop(session, meterStop, reason, endedAt);
      if StopGoesThrough(y.tables, stop, now) { StopMessageSound(y, stop, now); }
    case SessionChange(op) => MessageSound(y, op, now);
    case ProcessRestart =>
  }

  // ---------------------------------------------------------------- over whole runs

  datatype Timed = Timed(e: Event, now: int)

  ghost function Run(y: System, es: seq<Timed>): System {
    if es == [] then y else Step(Run(y, es[..|es| - 1]), es[|es| - 1].e, es[|es| - 1].now)
  }

  lemma {:induction false} RunSound(y: System, es: seq<Timed>)
    requires Sound(y)
    ensures Sound(Run(y, es))
    decreases |es|
  {
    if es != [] {
      RunSound(y, es[..|es| - 1]);
      StepSound(Run(y, es[..|es| - 1]), es[|es| - 1].e, es[|es| - 1].now);
    }
  }

  lemma {:induction false} RunSplit(y: System, a: seq<Timed>, b: seq<Timed>)
    ensures Run(y, a + b) == Run(Run(y, a), b)
    decreases |b|
  {
    if b == [] {
      assert a + b == a;
    } else {
      var init := b[..|b| - 1];
      RunSplit(y, a, init);
      assert (a + b)[..|a + b| - 1] == a + init;
    }
  }

  lemma RunThen(y: System, es: seq<Timed>, e: Event, now: int)
    ensures Run(y, es + [Timed.Timed(e, now)]) == Step(Run(y, es), e, now)
  {
    assert (es + [Timed.Timed(e, now)])[..|es|] == es;
  }
}
