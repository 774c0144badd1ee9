/** What the remote-command machinery guarantees over whole runs: exclusivity, evidence behind
    CONFIRMED, no missed stop, no stuck command, and where each guarantee ends. */
module CommandOutcomes {
  import opened Common
  import opened Sessions
  import opened RemoteCommands

  /** All of the run happens within one process life. */
  ghost predicate OneLife(es: seq<RemoteCommands.Timed>) {
    forall k :: 0 <= k < |es| ==> !es[k].e.ProcessRestart?
  }

  // ---------------------------------------------------------------- exclusivity, in every run

  /** In every run, restarts and direct requests included: a station-wide command in flight is
      the only one on its station, and otherwise commands in flight there have different
      connectors. */
  lemma {:induction false} CommandsExclusive(es: seq<RemoteCommands.Timed>, i: CommandId, j: CommandId)
    requires var commands := RemoteCommands.Run(INITIALLY, es).commands;
      i in commands && j in commands && i != j && commands[i].station == commands[j].station
      && !Resolved(commands[i].state) && !Resolved(commands[j].state)
    ensures var commands := RemoteCommands.Run(INITIALLY, es).commands;
      commands[i].connector.Some? && commands[j].connector.Some? && commands[i].connector != commands[j].connector
  {
    RemoteCommands.RunSound(INITIALLY, es);
  }

  /** A command carries a resolution time exactly when it is resolved, and a CONFIRMED stop
      always has a COMPLETED session behind it. */
  lemma {:induction false} ResolutionAndEvidence(es: seq<RemoteCommands.Timed>, cmd: CommandId)
    requires cmd in RemoteCommands.Run(INITIALLY, es).commands
    ensures var y := RemoteCommands.Run(INITIALLY, es);
      && (y.commands[cmd].resolvedAt.Some? <==> Resolved(y.commands[cmd].state))
      && (y.commands[cmd].kind.StopCommand? && y.commands[cmd].state == Confirmed ==>
            y.commands[cmd].session.Some? && CompletedIn(y.tables, y.commands[cmd].session.value))
  {
    RemoteCommands.RunSound(INITIALLY, es);
  }

  /** The start observation's lookup is never ambiguous. */
  lemma {:induction false} StartLookupUnambiguous(es: seq<RemoteCommands.Timed>, i: CommandId, j: CommandId,
                                                  station: StationId, connector: ConnectorId)
    requires var commands := RemoteCommands.Run(INITIALLY, es).commands;
      i in commands && j in commands && AwaitsStart(commands[i], station, connector)
        && AwaitsStart(commands[j], station, connector)
    ensures i == j
  {
    RemoteCommands.RunSound(INITIALLY, es);
    var commands := RemoteCommands.Run(INITIALLY, es).commands;
    if i != j { assert Clash(commands[i], commands[j]); }
  }

  // ---------------------------------------------------------------- at most three transitions

  function Rank(s: State): nat {
    match s
    case Requested => 3
    case Sent => 2
    case Accepted => 1
    case _ => 0
  }

  /** One step either leaves a command's state alone or makes one allowed transition; its target
      is fixed, and a resolved row is final. */
  ghost predicate OneMove(c: Command, c': Command) {
    && (c'.state == c.state || c'.state in Allowed(c.state))
    && c'.station == c.station && c'.connector == c.connector && c'.kind == c.kind && c'.requestedAt == c.requestedAt
    && c'.watched == c.watched
    && (c.session.Some? ==> c'.session == c.session)
    && (Resolved(c.state) ==> c' == c)
  }

  lemma PersistMoves(y: System, moving: CommandId, target: State, now: int, cmd: CommandId)
    requires cmd in y.commands
    ensures cmd in Persist(y, moving, target, now).commands
    ensures OneMove(y.commands[cmd], Persist(y, moving, target, now).commands[cmd])
  {
  }

  lemma ConfirmMoves(y: System, moving: CommandId, link: Option<SessionId>, choice: Choice, now: int, cmd: CommandId)
    requires cmd in y.commands
    ensures cmd in Perform(y, Confirm(moving, link), choice, now).commands
    ensures OneMove(y.commands[cmd], Perform(y, Confirm(moving, link), choice, now).commands[cmd])
  {
  }

  lemma PerformMoves(y: System, task: Task, choice: Choice, now: int, cmd: CommandId)
    requires cmd in y.commands
    ensures cmd in Perform(y, task, choice, now).commands
    ensures OneMove(y.commands[cmd], Perform(y, task, choice, now).commands[cmd])
  {
    match task
    case Dispatch(moving) => PersistMoves(y, moving, Rejected, now, cmd);
    case AwaitAnswer(moving) => PersistMoves(y, moving, Sent, now, cmd);
    case Settle(moving, outcome) =>
      var target :=
        if outcome.ChargerAccepts? then Accepted else if outcome.ChargerRejects? then Rejected else TimedOut;
      PersistMoves(y, moving, target, now, cmd);
    case Confirm(moving, link) => ConfirmMoves(y, moving, link, choice, now, cmd);
    case Expire(moving) => PersistMoves(y, moving, Unconfirmed, now, cmd);
    case _ =>
  }

  lemma {:induction false} StepMoves(y: System, e: Event, now: int, cmd: CommandId)
    requires RemoteCommands.Sound(y) && cmd in y.commands
    ensures cmd in RemoteCommands.Step(y, e, now).commands
    ensures OneMove(y.commands[cmd], RemoteCommands.Step(y, e, now).commands[cmd])
  {
    if !RemoteCommands.Enabled(y, e) { return; }
    match e
    case Continue(task, choice) => PerformMoves(Without(y, task), task, choice, now, cmd);
    case _ =>
  }

  ghost predicate ChangedLast(es: seq<RemoteCommands.Timed>, cmd: CommandId)
    requires es != []
  {
    var before, after := RemoteCommands.Run(INITIALLY, es[..|es| - 1]).commands,
      RemoteCommands.Run(INITIALLY, es).commands;
    cmd in before && cmd in after && before[cmd].state != after[cmd].state
  }

  /** How often the run changed the command's state. */
  ghost function Changes(es: seq<RemoteCommands.Timed>, cmd: CommandId): nat {
    if es == [] then 0 else Changes(es[..|es| - 1], cmd) + if ChangedLast(es, cmd) then 1 else 0
  }

  /** The transitions a command still has before it; 3 while it does not exist. */
  ghost function Left(es: seq<RemoteCommands.Timed>, cmd: CommandId): nat {
    var commands := RemoteCommands.Run(INITIALLY, es).commands;
    if cmd in commands then Rank(commands[cmd].state) else 3
  }

  lemma LeftAfter(es: seq<RemoteCommands.Timed>, cmd: CommandId)
    requires es != []
    ensures Left(es, cmd) + (if ChangedLast(es, cmd) then 1 else 0) <= Left(es[..|es| - 1], cmd)
  {
    var y, last := RemoteCommands.Run(INITIALLY, es[..|es| - 1]), es[|es| - 1];
    RemoteCommands.RunSound(INITIALLY, es[..|es| - 1]);
    if cmd in y.commands { StepMoves(y, last.e, last.now, cmd); }
  }

  /** Every command makes at most three transitions, and after three it is resolved. */
  lemma {:induction false} AtMostThreeTransitions(es: seq<RemoteCommands.Timed>, cmd: CommandId)
    ensures Changes(es, cmd) + Left(es, cmd) <= 3
    ensures cmd in RemoteCommands.Run(INITIALLY, es).commands && Changes(es, cmd) == 3 ==>
      Resolved(RemoteCommands.Run(INITIALLY, es).commands[cmd].state)
    decreases |es|
  {
    if es != [] {
      AtMostThreeTransitions(es[..|es| - 1], cmd);
      LeftAfter(es, cmd);
    }
  }

  // ---------------------------------------------------------------- a command and its request

  /** The request that created the command. */
  ghost function RequestOf(es: seq<RemoteCommands.Timed>, cmd: CommandId): Option<Request> {
    if es == [] then None
    else if cmd in RemoteCommands.Run(INITIALLY, es[..|es| - 1]).commands then RequestOf(es[..|es| - 1], cmd)
    else if es[|es| - 1].e.Ask? then Some(es[|es| - 1].e.request)
    else None
  }

  /** A start whose request named a session keeps that one; any other is linked exactly when
      CONFIRMED, and then to a session on its own connector. */
  ghost predicate StartLinked(t: Tables, c: Command, named: Option<SessionId>) {
    c.kind.StartCommand? ==>
      if named.Some? then c.session == named
      else (c.state == Confirmed <==> c.session.Some?) && (c.session.Some? ==> OnOwnConnector(t, c))
  }

  ghost predicate OnOwnConnector(t: Tables, c: Command) {
    c.session.Some? && c.session.value in t.sessions && c.connector == Some(t.sessions[c.session.value].connector)
  }

  /** A stop sits on the connector its request named, and else on its session's. */
  ghost predicate StopPlaced(t: Tables, c: Command, r: Request) {
    c.kind.StopCommand? ==>
      c.session == r.session && (if r.connector.Some? then c.connector == r.connector else OnOwnConnector(t, c))
  }

  /** Every command sits on the connector its request named, else on that of the session it named, and
      is station-wide when it named neither. */
  ghost predicate ConnectorPlaced(t: Tables, c: Command, r: Request) {
    if r.connector.Some? then c.connector == r.connector
    else if r.session.Some? then
      r.session.value in t.sessions && c.connector == Some(t.sessions[r.session.value].connector)
    else c.connector == None
  }

  ghost predicate MatchesRequest(t: Tables, c: Command, r: Request) {
    c.kind == r.kind && c.station == r.station && c.watched == r.registers && StartLinked(t, c, r.session)
      && StopPlaced(t, c, r) && ConnectorPlaced(t, c, r)
  }

  lemma NotConfirmed(y: System, task: Task, choice: Choice, now: int, cmd: CommandId)
    requires cmd in y.commands && !task.Confirm?
    ensures var y' := Perform(y, task, choice, now);
      && y'.tables == y.tables && cmd in y'.commands && y'.commands[cmd].session == y.commands[cmd].session
      && (y'.commands[cmd].state == Confirmed <==> y.commands[cmd].state == Confirmed)
  {
  }

  lemma PerformMatches(y: System, task: Task, choice: Choice, now: int, cmd: CommandId, r: Request)
    requires cmd in y.commands && MatchesRequest(y.tables, y.commands[cmd], r) && TaskSound(y.tables, y.commands, task)
    requires RemoteCommands.Sound(y)
    ensures var y' := Perform(y, task, choice, now);
      y'.tables == y.tables && cmd in y'.commands && MatchesRequest(y.tables, y'.commands[cmd], r)
  {
    PerformMoves(y, task, choice, now, cmd);
    if !task.Confirm? { NotConfirmed(y, task, choice, now, cmd); }
  }

  lemma MatchKept(t: Tables, t': Tables, c: Command, r: Request)
    requires Preserves(t, t') && MatchesRequest(t, c, r)
    ensures MatchesRequest(t', c, r)
  {
    if c.session.Some? && c.session.value in t.sessions { assert KeepsRow(t, t', c.session.value); }
    if r.session.Some? && r.session.value in t.sessions { assert KeepsRow(t, t', r.session.value); }
  }

  lemma TablesGrow(y: System, e: Event, now: int)
    requires RemoteCommands.Sound(y)
    ensures Preserves(y.tables, RemoteCommands.Step(y, e, now).tables)
  {
    var y' := RemoteCommands.Step(y, e, now);
    if e.StartTransaction? {
      ApplyPreserves(y.tables, Create(e.input), now);
    } else if e.StopTransaction? {
      ApplyPreserves(y.tables, Stop(e.session, e.meterStop, e.reason, e.endedAt), now);
    } else if e.SessionChange? {
      ApplyPreserves(y.tables, e.op, now);
    } else {
      assert y'.tables == y.tables;
    }
  }

  lemma StepMatches(y: System, e: Event, now: int, cmd: CommandId, r: Request)
    requires RemoteCommands.Sound(y) && cmd in y.commands && MatchesRequest(y.tables, y.commands[cmd], r)
    ensures cmd in RemoteCommands.Step(y, e, now).commands
    ensures MatchesRequest(RemoteCommands.Step(y, e, now).tables, RemoteCommands.Step(y, e, now).commands[cmd], r)
  {
    TablesGrow(y, e, now);
    MatchKept(y.tables, RemoteCommands.Step(y, e, now).tables, y.commands[cmd], r);
    if !RemoteCommands.Enabled(y, e) { return; }
    if e.Continue? {
      WithoutSound(y, e.task);
      PerformMatches(Without(y, e.task), e.task, e.choice, now, cmd, r);
    }
  }

  lemma CreatedMatches(y: System, e: Event, now: int, cmd: CommandId)
    requires RemoteCommands.Sound(y) && cmd !in y.commands && cmd in RemoteCommands.Step(y, e, now).commands
    ensures e.Ask?
    ensures var y' := RemoteCommands.Step(y, e, now);
      MatchesRequest(y'.tables, y'.commands[cmd], e.request)
  {
    if e.Continue? && RemoteCommands.Enabled(y, e) { WithoutMoves(y, e.task, e.choice, now, cmd); }
  }

  /** In every run, a command answers to the one request that created it; no other request matters. */
  lemma {:induction false} RunMatches(es: seq<RemoteCommands.Timed>, cmd: CommandId)
    requires cmd in RemoteCommands.Run(INITIALLY, es).commands
    ensures var y := RemoteCommands.Run(INITIALLY, es);
      RequestOf(es, cmd).Some? && MatchesRequest(y.tables, y.commands[cmd], RequestOf(es, cmd).value)
    decreases |es|
  {
    if es != [] {
      var init, last := es[..|es| - 1], es[|es| - 1];
      RemoteCommands.RunSound(INITIALLY, init);
      if cmd in RemoteCommands.Run(INITIALLY, init).commands {
        RunMatches(init, cmd);
        StepMatches(RemoteCommands.Run(INITIALLY, init), last.e, last.now, cmd, RequestOf(init, cmd).value);
      } else {
        CreatedMatches(RemoteCommands.Run(INITIALLY, init), last.e, last.now, cmd);
      }
    }
  }

  /** Evidence behind a CONFIRMED start. Naming no session, as the operator route does, is the
      exact condition: a request that names one keeps it, confirmed or not. */
  lemma {:induction false} ConfirmedStartIsLinked(es: seq<RemoteCommands.Timed>, cmd: CommandId)
    requires cmd in RemoteCommands.Run(INITIALLY, es).commands
    requires RemoteCommands.Run(INITIALLY, es).commands[cmd].kind.StartCommand?
    ensures var y := RemoteCommands.Run(INITIALLY, es);
      var c := y.commands[cmd];
      && RequestOf(es, cmd).Some?
      && (RequestOf(es, cmd).value.session.None? ==>
            (c.state == Confirmed <==> c.session.Some?) && (c.state == Confirmed ==> OnOwnConnector(y.tables, c)))
      && (RequestOf(es, cmd).value.session.Some? ==> c.session == RequestOf(es, cmd).value.session)
  {
    RunMatches(es, cmd);
  }

  /** Every stop asked for the session sits on the session's own connector. */
  ghost predicate OwnStops(y: System, session: SessionId) {
    forall i :: i in y.commands && y.commands[i].kind.StopCommand? && y.commands[i].session == Some(session) ==>
      OnOwnConnector(y.tables, y.commands[i])
  }

  predicate NamesOwn(t: Tables, r: Request, session: SessionId) {
    session in t.sessions && (r.connector.Some? ==> r.connector == Some(t.sessions[session].connector))
  }

  /** That is: no stop request for it named another connector. */
  lemma {:induction false} OwnStopsIff(es: seq<RemoteCommands.Timed>, session: SessionId)
    ensures var y := RemoteCommands.Run(INITIALLY, es);
      OwnStops(y, session) <==>
        forall i :: i in y.commands && y.commands[i].kind.StopCommand? && y.commands[i].session == Some(session) ==>
          RequestOf(es, i).Some? && NamesOwn(y.tables, RequestOf(es, i).value, session)
  {
    var y := RemoteCommands.Run(INITIALLY, es);
    RemoteCommands.RunSound(INITIALLY, es);
    forall i | i in y.commands && y.commands[i].kind.StopCommand? && y.commands[i].session == Some(session)
      ensures OnOwnConnector(y.tables, y.commands[i]) <==>
                RequestOf(es, i).Some? && NamesOwn(y.tables, RequestOf(es, i).value, session)
    {
      RunMatches(es, i);
      assert CommandSound(y.tables, y.commands[i]);
    }
  }

  // ---------------------------------------------------------------- nothing is missed, nothing is stuck

  /** The step that will take the command further is waiting. */
  ghost predicate Followed(y: System, cmd: CommandId)
    requires cmd in y.commands
  {
    match y.commands[cmd].state
    case Requested => Dispatch(cmd) in y.tasks || AwaitAnswer(cmd) in y.tasks
    case Sent =>
      Settle(cmd, ChargerAccepts) in y.tasks || Settle(cmd, ChargerRejects) in y.tasks
        || Settle(cmd, NoAnswer) in y.tasks
    case Accepted => RegisterAccepted(cmd) in y.tasks || cmd in y.timers || Expire(cmd) in y.tasks
    case _ => true
  }

  /** A step that will confirm the stop is waiting. */
  ghost predicate WillConfirm(y: System, cmd: CommandId, session: SessionId) {
    RegisterAccepted(cmd) in y.tasks || CheckNow(cmd) in y.tasks || ObserveStop(session) in y.tasks
      || Confirm(cmd, None) in y.tasks
  }

  ghost predicate StopCovered(y: System, cmd: CommandId)
    requires cmd in y.commands
  {
    var c := y.commands[cmd];
    c.kind.StopCommand? && c.state == Accepted && c.session.Some? && CompletedIn(y.tables, c.session.value) ==>
      WillConfirm(y, cmd, c.session.value)
  }

  /** Nothing but the task that ran has left the queue. */
  ghost predicate OthersWaiting(y: System, y': System, task: Task) {
    forall other :: other in y.tasks && other != task ==> other in y'.tasks
  }

  lemma KeepsWaiting(y: System, task: Task, choice: Choice, now: int, other: Task)
    requires other in y.tasks
    ensures other in Perform(y, task, choice, now).tasks
  {
  }

  lemma OtherWaits(y: System, task: Task, choice: Choice, now: int, other: Task)
    requires task in y.tasks && other in y.tasks && other != task
    ensures other in Perform(Without(y, task), task, choice, now).tasks
  {
    KeepsWaiting(Without(y, task), task, choice, now, other);
  }

  lemma OthersWait(y: System, task: Task, choice: Choice, now: int, y': System)
    requires task in y.tasks && y' == Perform(Without(y, task), task, choice, now)
    ensures OthersWaiting(y, y', task)
  {
    forall other | other in y.tasks && other != task ensures other in y'.tasks {
      OtherWaits(y, task, choice, now, other);
    }
  }

  lemma DispatchFollowed(y: System, cmd: CommandId, choice: Choice, now: int)
    requires Dispatch(cmd) in y.tasks && cmd in y.commands && Followed(y, cmd)
    ensures Followed(Perform(Without(y, Dispatch(cmd)), Dispatch(cmd), choice, now), cmd)
  {
    OthersWait(y, Dispatch(cmd), choice, now, Perform(Without(y, Dispatch(cmd)), Dispatch(cmd), choice, now));
  }

  lemma AnswerFollowed(y: System, cmd: CommandId, choice: Choice, now: int)
    requires AwaitAnswer(cmd) in y.tasks && cmd in y.commands && Followed(y, cmd)
    ensures Followed(Perform(Without(y, AwaitAnswer(cmd)), AwaitAnswer(cmd), choice, now), cmd)
  {
    var task := AwaitAnswer(cmd);
    if y.commands[cmd].state == Requested {
      var y' := Perform(Without(y, task), task, choice, now);
      assert y'.commands[cmd].state == Sent && Settle(cmd, choice.outcome) in y'.tasks;
      assert choice.outcome == ChargerAccepts || choice.outcome == ChargerRejects || choice.outcome == NoAnswer;
    } else {
      OthersWait(y, AwaitAnswer(cmd), choice, now,
        Perform(Without(y, AwaitAnswer(cmd)), AwaitAnswer(cmd), choice, now));
    }
  }

  lemma SettleFollowed(y: System, cmd: CommandId, outcome: Outcome, choice: Choice, now: int)
    requires Settle(cmd, outcome) in y.tasks && cmd in y.commands && Followed(y, cmd)
    ensures var y' := Perform(Without(y, Settle(cmd, outcome)), Settle(cmd, outcome), choice, now);
      Followed(y', cmd) || (y'.commands[cmd].state == Accepted && !y.commands[cmd].watched)
  {
    var y' := Perform(Without(y, Settle(cmd, outcome)), Settle(cmd, outcome), choice, now);
    OthersWait(y, Settle(cmd, outcome), choice, now, y');
  }

  /** A task about something else leaves the command's row and its waiting tasks alone. */
  lemma ElsewhereUntouched(y: System, task: Task, choice: Choice, now: int, cmd: CommandId)
    requires task in y.tasks && cmd in y.commands
    requires task.ObserveStart? || task.ObserveStop? || task.cmd != cmd
    ensures var y' := Perform(Without(y, task), task, choice, now);
      cmd in y'.commands && y'.commands[cmd] == y.commands[cmd] && y'.tables == y.tables
        && (cmd in y.timers ==> cmd in y'.timers)
  {
    OtherRowUntouched(Without(y, task), task, choice, now, cmd);
  }

  lemma OtherRowUntouched(y: System, task: Task, choice: Choice, now: int, cmd: CommandId)
    requires cmd in y.commands && (task.ObserveStart? || task.ObserveStop? || task.cmd != cmd)
    ensures var y' := Perform(y, task, choice, now);
      cmd in y'.commands && y'.commands[cmd] == y.commands[cmd] && y'.tables == y.tables
        && (cmd in y.timers ==> cmd in y'.timers)
  {
  }

  lemma RegistrationFollowed(y: System, task: Task, choice: Choice, now: int, y': System)
    requires task.RegisterAccepted? || task.CheckNow?
    requires task in y.tasks && task.cmd in y.commands && Followed(y, task.cmd)
    requires y' == Perform(Without(y, task), task, choice, now)
    ensures task.cmd in y'.commands && Followed(y', task.cmd)
  {
    assert y'.commands == y.commands;
    assert task.RegisterAccepted? ==> task.cmd in y'.timers;
    OthersWait(y, task, choice, now, y');
  }

  lemma ResolutionFollowed(y: System, task: Task, choice: Choice, now: int, y': System)
    requires task.Confirm? || task.Expire?
    requires task in y.tasks && task.cmd in y.commands && Followed(y, task.cmd)
    requires y' == Perform(Without(y, task), task, choice, now)
    ensures task.cmd in y'.commands && Followed(y', task.cmd)
  {
    if y.commands[task.cmd].state == Accepted {
      assert Resolved(y'.commands[task.cmd].state);
    } else {
      assert y'.commands == y.commands;
      OthersWait(y, task, choice, now, y');
    }
  }

  lemma ElsewhereFollowed(y: System, task: Task, choice: Choice, now: int, cmd: CommandId, y': System)
    requires task in y.tasks && cmd in y.commands && Followed(y, cmd)
    requires task.ObserveStart? || task.ObserveStop? || task.cmd != cmd
    requires y' == Perform(Without(y, task), task, choice, now)
    ensures cmd in y'.commands && Followed(y', cmd)
  {
    ElsewhereUntouched(y, task, choice, now, cmd);
    OthersWait(y, task, choice, now, y');
  }

  /** A step is due to wait for every command in flight but an accepted one nobody registers. */
  predicate Due(c: Command) {
    c.watched || c.state != Accepted
  }

  lemma PerformFollowed(y: System, task: Task, choice: Choice, now: int, cmd: CommandId, y': System)
    requires task in y.tasks && cmd in y.commands && Followed(y, cmd)
    requires y' == Perform(Without(y, task), task, choice, now) && cmd in y'.commands
    ensures Due(y'.commands[cmd]) ==> Followed(y', cmd)
  {
    PerformMoves(Without(y, task), task, choice, now, cmd);
    if task.ObserveStart? || task.ObserveStop? || task.cmd != cmd {
      ElsewhereFollowed(y, task, choice, now, cmd, y');
    } else if task.Dispatch? {
      DispatchFollowed(y, cmd, choice, now);
    } else if task.AwaitAnswer? {
      AnswerFollowed(y, cmd, choice, now);
    } else if task.Settle? {
      SettleFollowed(y, cmd, task.outcome, choice, now);
    } else if task.Confirm? || task.Expire? {
      ResolutionFollowed(y, task, choice, now, y');
    } else {
      RegistrationFollowed(y, task, choice, now, y');
    }
  }

  /** Two accepted stops for one session: an observed stop confirms only one of them. */
  predicate Rivals(a: Command, b: Command) {
    a.kind.StopCommand? && b.kind.StopCommand? && a.state == Accepted && b.state == Accepted && a.session == b.session
  }

  ghost predicate Alone(y: System, cmd: CommandId)
    requires cmd in y.commands
  {
    forall i :: i in y.commands && i != cmd ==> !Rivals(y.commands[i], y.commands[cmd])
  }

  /** Stops on the session's own connector clash, so at most one of them is in flight. */
  lemma OwnStopsAlone(y: System, cmd: CommandId, session: SessionId)
    requires RemoteCommands.Sound(y) && cmd in y.commands && y.commands[cmd].session == Some(session)
    requires OwnStops(y, session)
    ensures Alone(y, cmd)
  {
    forall i | i in y.commands && i != cmd ensures !Rivals(y.commands[i], y.commands[cmd]) {
      assert CommandSound(y.tables, y.commands[i]) && CommandSound(y.tables, y.commands[cmd]);
      var a, b := y.commands[i], y.commands[cmd];
      assert Rivals(a, b) ==> Clash(a, b);
    }
  }

  lemma ObservationCovers(y: System, session: SessionId, choice: Choice, now: int, cmd: CommandId)
    requires ObserveStop(session) in y.tasks && ValidChoice(y, ObserveStop(session), choice)
    requires cmd in y.commands && AwaitsStop(y.commands[cmd], session) && Alone(y, cmd)
    ensures Confirm(cmd, None) in Perform(Without(y, ObserveStop(session)), ObserveStop(session), choice, now).tasks
  {
    forall i | i in y.commands && AwaitsStop(y.commands[i], session) ensures i == cmd {
      assert i != cmd ==> !Rivals(y.commands[i], y.commands[cmd]);
    }
    assert choice.command == Some(cmd);
  }

  lemma CheckCovered(y: System, cmd: CommandId, choice: Choice, now: int)
    requires CheckNow(cmd) in y.tasks && cmd in y.commands && StopCovered(y, cmd)
    ensures StopCovered(Perform(Without(y, CheckNow(cmd)), CheckNow(cmd), choice, now), cmd)
  {
    var y' := Perform(Without(y, CheckNow(cmd)), CheckNow(cmd), choice, now);
    var c := y.commands[cmd];
    if c.kind.StopCommand? && c.session.Some? && CompletedIn(y.tables, c.session.value) {
      assert Confirm(cmd, None) in y'.tasks;
    }
  }

  lemma QuietRow(y: System, task: Task, choice: Choice, now: int)
    requires (task.Dispatch? || task.AwaitAnswer? || task.Confirm? || task.Expire?) && task.cmd in y.commands
    ensures var y' := Perform(y, task, choice, now);
      && task.cmd in y'.commands && y'.tables == y.tables
      && (y'.commands[task.cmd].state == Accepted ==> y'.commands[task.cmd] == y.commands[task.cmd] && !task.Confirm?)
  {
  }

  /** While the stop stays ACCEPTED no other task of its own can be the one that will confirm it. */
  lemma QuietTaskCovered(y: System, task: Task, choice: Choice, now: int, y': System)
    requires task.Dispatch? || task.AwaitAnswer? || task.Confirm? || task.Expire?
    requires task in y.tasks && task.cmd in y.commands && StopCovered(y, task.cmd)
    requires y' == Perform(Without(y, task), task, choice, now) && task.cmd in y'.commands
    ensures StopCovered(y', task.cmd)
  {
    QuietRow(Without(y, task), task, choice, now);
    if y'.commands[task.cmd].state == Accepted { OthersWait(y, task, choice, now, y'); }
  }

  lemma OwnTaskCovered(y: System, task: Task, choice: Choice, now: int, cmd: CommandId, y': System)
    requires task in y.tasks && cmd in y.commands && StopCovered(y, cmd)
    requires !task.ObserveStart? && !task.ObserveStop? && task.cmd == cmd && !AcceptsUnwatched(y, task, cmd)
    requires y' == Perform(Without(y, task), task, choice, now) && cmd in y'.commands
    ensures StopCovered(y', cmd)
  {
    if task.Settle? {
      if y'.commands[cmd].state == Accepted {
        OthersWait(y, task, choice, now, y');
        SettledOrSame(y, task, choice, now, y');
      }
    } else if task.RegisterAccepted? {
      assert CheckNow(cmd) in y'.tasks;
    } else if task.CheckNow? {
      CheckCovered(y, cmd, choice, now);
    } else {
      QuietTaskCovered(y, task, choice, now, y');
    }
  }

  /** An accepting answer for a command that nobody will register. */
  predicate AcceptsUnwatched(y: System, task: Task, cmd: CommandId) {
    task == Settle(cmd, ChargerAccepts) && cmd in y.commands && y.commands[cmd].state == Sent
      && !y.commands[cmd].watched
  }

  /** An accepting answer leaves the registration waiting, if somebody registers. */
  lemma SettledOrSame(y: System, task: Task, choice: Choice, now: int, y': System)
    requires task.Settle? && task.cmd in y.commands && y' == Perform(Without(y, task), task, choice, now)
    requires y'.commands[task.cmd].state == Accepted
    ensures RegisterAccepted(task.cmd) in y'.tasks
      || (y'.commands[task.cmd] == y.commands[task.cmd] && y'.tables == y.tables)
      || AcceptsUnwatched(y, task, task.cmd)
  {
  }

  lemma AcceptedUnwatchedIs(y: System, cmd: CommandId, choice: Choice, now: int, y': System)
    requires Settle(cmd, ChargerAccepts) in y.tasks && AcceptsUnwatched(y, Settle(cmd, ChargerAccepts), cmd)
    requires y' == Perform(Without(y, Settle(cmd, ChargerAccepts)), Settle(cmd, ChargerAccepts), choice, now)
    ensures y'.tables == y.tables && y'.commands == y.commands[cmd := Moved(y.commands[cmd], Accepted, now)]
    ensures forall task :: task != Settle(cmd, ChargerAccepts) ==> (task in y'.tasks <==> task in y.tasks)
  {
    assert forall task :: task != Settle(cmd, ChargerAccepts) ==>
      (task in Without(y, Settle(cmd, ChargerAccepts)).tasks <==> task in y.tasks);
  }

  lemma ElsewhereCovered(y: System, task: Task, choice: Choice, now: int, cmd: CommandId, y': System)
    requires task in y.tasks && ValidChoice(y, task, choice)
    requires cmd in y.commands && StopCovered(y, cmd) && Alone(y, cmd)
    requires task.ObserveStart? || task.ObserveStop? || task.cmd != cmd
    requires y' == Perform(Without(y, task), task, choice, now)
    ensures cmd in y'.commands && StopCovered(y', cmd)
  {
    ElsewhereUntouched(y, task, choice, now, cmd);
    OthersWait(y, task, choice, now, y');
    if task.ObserveStop? && AwaitsStop(y.commands[cmd], task.session) {
      ObservationCovers(y, task.session, choice, now, cmd);
    }
  }

  lemma PerformCovered(y: System, task: Task, choice: Choice, now: int, cmd: CommandId, y': System)
    requires task in y.tasks && ValidChoice(y, task, choice) && !AcceptsUnwatched(y, task, cmd)
    requires cmd in y.commands && StopCovered(y, cmd) && Alone(y, cmd)
    requires y' == Perform(Without(y, task), task, choice, now)
    ensures cmd in y'.commands && StopCovered(y', cmd)
  {
    PerformMoves(Without(y, task), task, choice, now, cmd);
    if task.ObserveStart? || task.ObserveStop? || task.cmd != cmd {
      ElsewhereCovered(y, task, choice, now, cmd, y');
    } else {
      OwnTaskCovered(y, task, choice, now, cmd, y');
    }
  }

  /** Only stopping a session completes it. */
  lemma OnlyStopCompletes(t: Tables, op: Op, now: int, session: SessionId)
    requires Sessions.Valid(t) && Callable(op) && !op.Stop?
    ensures CompletedIn(Apply(t, op, now), session) ==> CompletedIn(t, session)
  {
    match op
    case Create(_) =>
    case Record(_, _) =>
    case Fail(_, _) =>
    case Cancel(_, _) =>
    case Move(_, _) =>
  }

  lemma TablesCovered(y: System, op: Op, now: int, cmd: CommandId)
    requires RemoteCommands.Sound(y) && Callable(op) && cmd in y.commands && StopCovered(y, cmd)
    ensures var y' := y.(tables := Apply(y.tables, op, now));
      StopCovered(if op.Stop? then Add(y', ObserveStop(op.stopped)) else y', cmd)
  {
    var c := y.commands[cmd];
    if c.session.Some? {
      if op.Stop? {
        if CompletedIn(Apply(y.tables, op, now), c.session.value) {
          StopCompletesItsOwn(y.tables, op, now, c.session.value);
        }
      } else {
        OnlyStopCompletes(y.tables, op, now, c.session.value);
      }
    }
  }

  lemma StopCompletesItsOwn(t: Tables, op: Op, now: int, session: SessionId)
    requires op.Stop? && CompletedIn(Apply(t, op, now), session)
    ensures session == op.stopped || CompletedIn(t, session)
  {
  }

  /** A new command is waiting to be dispatched; the others are as they were. */
  lemma AskKeeps(y: System, r: Request, now: int, cmd: CommandId)
    requires RemoteCommands.Sound(y) && cmd in RemoteCommands.Step(y, Ask(r), now).commands
    ensures var y' := RemoteCommands.Step(y, Ask(r), now);
      && (cmd in y.commands ==> y'.commands[cmd] == y.commands[cmd])
      && (cmd !in y.commands ==> y'.commands[cmd].state == Requested && Dispatch(cmd) in y'.tasks)
      && y'.tables == y.tables && y'.timers == y.timers && forall task :: task in y.tasks ==> task in y'.tasks
  {
    if cmd in y.commands { assert cmd != y.next; }
  }

  /** A task adds no command. */
  lemma WithoutMoves(y: System, task: Task, choice: Choice, now: int, cmd: CommandId)
    requires task in y.tasks && ValidChoice(y, task, choice)
    ensures cmd in Perform(Without(y, task), task, choice, now).commands ==> cmd in y.commands
  {
  }

  lemma MessageKeeps(y: System, e: Event, now: int)
    requires e.StartTransaction? || e.StopTransaction? || e.SessionChange?
    ensures var y' := RemoteCommands.Step(y, e, now);
      y'.commands == y.commands && y'.timers == y.timers && forall task :: task in y.tasks ==> task in y'.tasks
  {
  }

  lemma WaitingStays(y: System, y': System, cmd: CommandId)
    requires cmd in y.commands && cmd in y'.commands && y'.commands[cmd] == y.commands[cmd] && Followed(y, cmd)
    requires cmd in y.timers ==> cmd in y'.timers || Expire(cmd) in y'.tasks
    requires forall task :: task in y.tasks ==> task in y'.tasks
    ensures Followed(y', cmd)
  {
  }

  lemma TaskFollowed(y: System, task: Task, choice: Choice, now: int, cmd: CommandId)
    requires task in y.tasks && cmd in Perform(Without(y, task), task, choice, now).commands
    requires ValidChoice(y, task, choice) && (cmd in y.commands && Due(y.commands[cmd]) ==> Followed(y, cmd))
    ensures var y' := Perform(Without(y, task), task, choice, now);
      Due(y'.commands[cmd]) ==> Followed(y', cmd)
  {
    WithoutMoves(y, task, choice, now, cmd);
    PerformMoves(Without(y, task), task, choice, now, cmd);
    if Due(y.commands[cmd]) {
      PerformFollowed(y, task, choice, now, cmd, Perform(Without(y, task), task, choice, now));
    }
  }

  lemma TimerKeeps(y: System, fired: CommandId, now: int)
    requires fired in y.timers
    ensures var y' := RemoteCommands.Step(y, TimerFires(fired), now);
      && y'.commands == y.commands && y'.tables == y.tables && y'.timers == y.timers - {fired}
      && Expire(fired) in y'.tasks && forall task :: task in y.tasks ==> task in y'.tasks
  {
  }

  /** Within a process life a command whose next step is due keeps one waiting. */
  lemma {:induction false} StepFollowed(y: System, e: Event, now: int, cmd: CommandId)
    requires RemoteCommands.Sound(y) && !e.ProcessRestart? && cmd in RemoteCommands.Step(y, e, now).commands
    requires cmd in y.commands && Due(y.commands[cmd]) ==> Followed(y, cmd)
    ensures Due(RemoteCommands.Step(y, e, now).commands[cmd]) ==> Followed(RemoteCommands.Step(y, e, now), cmd)
  {
    if !RemoteCommands.Enabled(y, e) { return; }
    var y' := RemoteCommands.Step(y, e, now);
    if e.Continue? {
      TaskFollowed(y, e.task, e.choice, now, cmd);
    } else {
      if e.Ask? { AskKeeps(y, e.request, now, cmd); }
      if e.TimerFires? { TimerKeeps(y, e.cmd, now); }
      if !e.Ask? && !e.TimerFires? { MessageKeeps(y, e, now); }
      if cmd in y.commands && Due(y.commands[cmd]) { WaitingStays(y, y', cmd); }
    }
  }

  /** Nothing of the confirmation service's knows the command. */
  ghost predicate Silent(y: System, cmd: CommandId) {
    RegisterAccepted(cmd) !in y.tasks && CheckNow(cmd) !in y.tasks && Expire(cmd) !in y.tasks && cmd !in y.timers
  }

  /** What queues a registration, a check or an expiry. */
  lemma QueuedBy(y: System, task: Task, choice: Choice, now: int, other: Task)
    requires other in Perform(y, task, choice, now).tasks && other !in y.tasks
    ensures other.RegisterAccepted? ==>
      task == Settle(other.cmd, ChargerAccepts) && other.cmd in y.commands && y.commands[other.cmd].watched
    ensures other.CheckNow? ==> task == RegisterAccepted(other.cmd)
    ensures !other.Expire?
  {
  }

  lemma ArmedBy(y: System, task: Task, choice: Choice, now: int, cmd: CommandId)
    requires cmd in Perform(y, task, choice, now).timers && cmd !in y.timers
    ensures task == RegisterAccepted(cmd)
  {
  }

  lemma SilentPerform(y: System, task: Task, choice: Choice, now: int, cmd: CommandId)
    requires cmd in y.commands && !y.commands[cmd].watched && Silent(y, cmd) && task in y.tasks
    ensures Silent(Perform(Without(y, task), task, choice, now), cmd)
  {
    var y1 := Without(y, task);
    assert forall other :: other in y1.tasks ==> other in y.tasks;
    var y' := Perform(y1, task, choice, now);
    if RegisterAccepted(cmd) in y'.tasks { QueuedBy(y1, task, choice, now, RegisterAccepted(cmd)); }
    if CheckNow(cmd) in y'.tasks { QueuedBy(y1, task, choice, now, CheckNow(cmd)); }
    if Expire(cmd) in y'.tasks { QueuedBy(y1, task, choice, now, Expire(cmd)); }
    if cmd in y'.timers { ArmedBy(y1, task, choice, now, cmd); }
  }

  lemma UnknownIsSilent(y: System, cmd: CommandId)
    requires RemoteCommands.Sound(y) && cmd !in y.commands
    ensures Silent(y, cmd)
  {
    assert forall task :: task in y.tasks ==> TaskSound(y.tables, y.commands, task);
  }

  /** A command nobody registers stays unknown to the confirmation service. */
  lemma StepSilent(y: System, e: Event, now: int, cmd: CommandId)
    requires RemoteCommands.Sound(y) && cmd in RemoteCommands.Step(y, e, now).commands
    requires !RemoteCommands.Step(y, e, now).commands[cmd].watched && (cmd in y.commands ==> Silent(y, cmd))
    ensures Silent(RemoteCommands.Step(y, e, now), cmd)
  {
    if cmd in y.commands {
      StepMoves(y, e, now, cmd);
    } else {
      CreatedMatches(y, e, now, cmd);
      UnknownIsSilent(y, cmd);
    }
    if RemoteCommands.Enabled(y, e) && e.Continue? { SilentPerform(y, e.task, e.choice, now, cmd); }
  }

  lemma MessageCovered(y: System, e: Event, now: int, cmd: CommandId)
    requires RemoteCommands.Sound(y) && cmd in y.commands && StopCovered(y, cmd)
    requires (e.StartTransaction? || e.StopTransaction? || e.SessionChange?) && RemoteCommands.Enabled(y, e)
    ensures var y' := RemoteCommands.Step(y, e, now);
      cmd in y'.commands && StopCovered(y', cmd)
  {
    match e
    case StartTransaction(input) => TablesCovered(y, Create(input), now, cmd);
    case StopTransaction(session, meterStop, reason, endedAt) =>
      TablesCovered(y, Stop(session, meterStop, reason, endedAt), now, cmd);
    case SessionChange(op) => TablesCovered(y, op, now, cmd);
  }

  /** A stop that nobody registers is accepted after its session was completed, with nothing that
      would confirm it waiting. */
  ghost predicate AcceptedLate(y: System, e: Event, cmd: CommandId)
    requires cmd in y.commands
  {
    var c := y.commands[cmd];
    && e.Continue? && e.task in y.tasks && AcceptsUnwatched(y, e.task, cmd)
    && c.kind.StopCommand? && c.session.Some? && CompletedIn(y.tables, c.session.value)
      && !WillConfirm(y, cmd, c.session.value)
  }

  lemma LateAcceptanceIff(y: System, choice: Choice, now: int, cmd: CommandId)
    requires cmd in y.commands && Settle(cmd, ChargerAccepts) in y.tasks
    requires AcceptsUnwatched(y, Settle(cmd, ChargerAccepts), cmd)
    ensures var e := Continue(Settle(cmd, ChargerAccepts), choice);
      var y' := RemoteCommands.Step(y, e, now);
      cmd in y'.commands && (StopCovered(y', cmd) <==> !AcceptedLate(y, e, cmd))
  {
    AcceptedUnwatchedIs(y, cmd, choice, now,
      RemoteCommands.Step(y, Continue(Settle(cmd, ChargerAccepts), choice), now));
  }

  /** While no rival is accepted beside it, exactly one thing in a process life uncovers a stop. */
  lemma {:induction false} StepCoveredIff(y: System, e: Event, now: int, cmd: CommandId)
    requires RemoteCommands.Sound(y) && !e.ProcessRestart? && cmd in y.commands && StopCovered(y, cmd) && Alone(y, cmd)
    ensures cmd in RemoteCommands.Step(y, e, now).commands
    ensures StopCovered(RemoteCommands.Step(y, e, now), cmd) <==> !AcceptedLate(y, e, cmd)
  {
    StepMoves(y, e, now, cmd);
    if !RemoteCommands.Enabled(y, e) { return; }
    var y' := RemoteCommands.Step(y, e, now);
    if e.Ask? {
      AskKeeps(y, e.request, now, cmd);
    } else if e.Continue? {
      if AcceptsUnwatched(y, e.task, cmd) {
        LateAcceptanceIff(y, e.choice, now, cmd);
      } else {
        PerformCovered(y, e.task, e.choice, now, cmd, y');
      }
    } else if e.TimerFires? {
      assert forall task :: task in y.tasks ==> task in y'.tasks;
    } else {
      MessageCovered(y, e, now, cmd);
    }
  }

  /** A command just requested is not accepted, so nothing is owed to it yet. */
  lemma NewIsRequested(y: System, e: Event, now: int, cmd: CommandId)
    requires RemoteCommands.Sound(y) && cmd !in y.commands && cmd in RemoteCommands.Step(y, e, now).commands
    ensures RemoteCommands.Step(y, e, now).commands[cmd].state == Requested && e.Ask?
  {
    CreatedMatches(y, e, now, cmd);
  }

  // ---------------------------------------------------------------- over a process life

  lemma {:induction false} LifeDue(y: System, life: seq<RemoteCommands.Timed>, cmd: CommandId)
    requires RemoteCommands.Sound(y) && OneLife(life) && cmd in RemoteCommands.Run(y, life).commands
    requires cmd !in y.commands
    ensures var z := RemoteCommands.Run(y, life);
      (Due(z.commands[cmd]) ==> Followed(z, cmd)) && (!z.commands[cmd].watched ==> Silent(z, cmd))
    decreases |life|
  {
    if life != [] {
      var init, last := life[..|life| - 1], life[|life| - 1];
      RemoteCommands.RunSound(y, init);
      var z := RemoteCommands.Run(y, init);
      if cmd in z.commands {
        LifeDue(y, init, cmd);
        StepMoves(z, last.e, last.now, cmd);
      }
      StepFollowed(z, last.e, last.now, cmd);
      if !RemoteCommands.Run(y, life).commands[cmd].watched { StepSilent(z, last.e, last.now, cmd); }
    }
  }

  /** Of a command requested in a process life, whatever came before it, the next step is waiting
      exactly when its requester registers or it is not ACCEPTED. */
  lemma {:induction false} LifeFollowedIff(y: System, life: seq<RemoteCommands.Timed>, cmd: CommandId)
    requires RemoteCommands.Sound(y) && OneLife(life) && cmd in RemoteCommands.Run(y, life).commands
    requires cmd !in y.commands
    ensures var z := RemoteCommands.Run(y, life);
      Followed(z, cmd) <==> z.commands[cmd].watched || z.commands[cmd].state != Accepted
  {
    LifeDue(y, life, cmd);
  }

  /** Stops asked so far keep their connectors, so the condition held earlier if it holds now. */
  lemma OwnStopsBefore(y: System, e: Event, now: int, session: SessionId)
    requires RemoteCommands.Sound(y) && OwnStops(RemoteCommands.Step(y, e, now), session)
    ensures OwnStops(y, session)
  {
    var y' := RemoteCommands.Step(y, e, now);
    TablesGrow(y, e, now);
    forall i | i in y.commands && y.commands[i].kind.StopCommand? && y.commands[i].session == Some(session)
      ensures OnOwnConnector(y.tables, y.commands[i])
    {
      StepMoves(y, e, now, i);
      assert OnOwnConnector(y'.tables, y'.commands[i]);
      assert CommandSound(y.tables, y.commands[i]);
      assert KeepsRow(y.tables, y'.tables, session);
    }
  }

  /** No step of the run accepts the stop too late, unregistered. */
  ghost predicate NeverLate(y: System, life: seq<RemoteCommands.Timed>, cmd: CommandId) {
    life != [] ==>
      var z, e := RemoteCommands.Run(y, life[..|life| - 1]), life[|life| - 1].e;
      NeverLate(y, life[..|life| - 1], cmd) && (cmd in z.commands ==> !AcceptedLate(z, e, cmd))
  }

  /** That is so whenever the requester registers, as both operator routes do. */
  lemma {:induction false} WatchedNeverLate(y: System, life: seq<RemoteCommands.Timed>, cmd: CommandId)
    requires RemoteCommands.Sound(y) && cmd in RemoteCommands.Run(y, life).commands
    requires RemoteCommands.Run(y, life).commands[cmd].watched
    ensures NeverLate(y, life, cmd)
    decreases |life|
  {
    if life != [] {
      var init, last := life[..|life| - 1], life[|life| - 1];
      RemoteCommands.RunSound(y, init);
      var z := RemoteCommands.Run(y, init);
      if cmd in z.commands {
        StepMoves(z, last.e, last.now, cmd);
        WatchedNeverLate(y, init, cmd);
      } else {
        AbsentNeverLate(y, init, cmd);
      }
    }
  }

  lemma {:induction false} AbsentNeverLate(y: System, life: seq<RemoteCommands.Timed>, cmd: CommandId)
    requires RemoteCommands.Sound(y) && cmd !in RemoteCommands.Run(y, life).commands
    ensures NeverLate(y, life, cmd)
    decreases |life|
  {
    if life != [] {
      var init, last := life[..|life| - 1], life[|life| - 1];
      RemoteCommands.RunSound(y, init);
      if cmd in RemoteCommands.Run(y, init).commands { StepMoves(RemoteCommands.Run(y, init), last.e, last.now, cmd); }
      AbsentNeverLate(y, init, cmd);
    }
  }

  /** No missed stop: for a stop requested in a process life, whatever came before it, while it is
      ACCEPTED and its session COMPLETED a step that will confirm it is waiting, as long as every
      stop ever asked for that session named no connector or the session's own, and it was not
      accepted too late with nobody registering it. */
  lemma {:induction false} NoMissedStop(y: System, life: seq<RemoteCommands.Timed>, cmd: CommandId, session: SessionId)
    requires RemoteCommands.Sound(y) && OneLife(life) && cmd in RemoteCommands.Run(y, life).commands
    requires (cmd in y.commands ==> StopCovered(y, cmd)) && NeverLate(y, life, cmd)
    requires RemoteCommands.Run(y, life).commands[cmd].kind.StopCommand?
    requires RemoteCommands.Run(y, life).commands[cmd].session == Some(session)
    requires OwnStops(RemoteCommands.Run(y, life), session)
    ensures StopCovered(RemoteCommands.Run(y, life), cmd)
    decreases |life|
  {
    if life != [] {
      var init, last := life[..|life| - 1], life[|life| - 1];
      RemoteCommands.RunSound(y, init);
      var z := RemoteCommands.Run(y, init);
      OwnStopsBefore(z, last.e, last.now, session);
      if cmd in z.commands {
        StepMoves(z, last.e, last.now, cmd);
        assert CommandSound(z.tables, z.commands[cmd]);
        NoMissedStop(y, init, cmd, session);
        OwnStopsAlone(z, cmd, session);
        StepCoveredIff(z, last.e, last.now, cmd);
      } else {
        NewIsRequested(z, last.e, last.now, cmd);
      }
    }
  }
}
