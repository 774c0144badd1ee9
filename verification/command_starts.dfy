/** The other half of confirmation: an accepted start whose charge is running is not missed, unless
    the charge was away while the command was checked and comes back afterwards, or the start is
    accepted while the charge runs with nobody registering it. */
module CommandStarts {
  import opened Common
  import opened Sessions
  import opened RemoteCommands
  import opened CommandOutcomes
  import opened CommandRaces

  /** A running session that answers the start request. */
  ghost predicate Answers(c: Command, s: Session) {
    StartEvidence(c, s) && s.station == c.station
  }

  ghost predicate Answered(t: Tables, c: Command) {
    exists s :: s in t.sessions && Answers(c, t.sessions[s])
  }

  /** A step that will confirm the start is waiting. */
  ghost predicate WillConfirmStart(y: System, cmd: CommandId, station: StationId, connector: ConnectorId) {
    || RegisterAccepted(cmd) in y.tasks || CheckNow(cmd) in y.tasks
    || (exists s :: ObserveStart(station, connector, s) in y.tasks)
    || (exists link :: Confirm(cmd, link) in y.tasks)
  }

  ghost predicate StartCovered(y: System, cmd: CommandId)
    requires cmd in y.commands
  {
    var c := y.commands[cmd];
    c.connector.Some? && c.state == Accepted && Answered(y.tables, c) ==>
      WillConfirmStart(y, cmd, c.station, c.connector.value)
  }

  /** A charge of the command's own station and connector, begun no earlier than the request, that
      is away. */
  predicate AwayFor(c: Command, s: Session) {
    && c.kind.StartCommand? && c.station == s.station && c.connector == Some(s.connector)
    && s.startedAt >= c.requestedAt && (s.status == Offline || s.status == Suspended)
  }

  /** The charge of an ACCEPTED start comes back, or the start is accepted with nobody registering it
      while its charge is running, and no step that would confirm it is waiting. */
  ghost predicate Misses(y: System, e: Event, cmd: CommandId)
    requires cmd in y.commands
  {
    var c := y.commands[cmd];
    && c.connector.Some? && !WillConfirmStart(y, cmd, c.station, c.connector.value)
    && (ComesBack(y, e, c)
        || (e.Continue? && e.task in y.tasks && AcceptsUnwatched(y, e.task, cmd) && Answered(y.tables, c)))
  }

  predicate ComesBack(y: System, e: Event, c: Command) {
    && e.SessionChange? && e.op.Move? && e.op.target == Active && c.state == Accepted
    && e.op.moved in y.tables.sessions && AwayFor(c, y.tables.sessions[e.op.moved])
  }

  // ---------------------------------------------------------------- tasks

  lemma StartElsewhere(y: System, task: Task, choice: Choice, now: int, cmd: CommandId, y': System)
    requires RemoteCommands.Sound(y) && task in y.tasks && ValidChoice(y, task, choice)
    requires cmd in y.commands && StartCovered(y, cmd)
    requires task.ObserveStart? || task.ObserveStop? || task.cmd != cmd
    requires y' == Perform(Without(y, task), task, choice, now)
    ensures cmd in y'.commands && StartCovered(y', cmd)
  {
    ElsewhereUntouched(y, task, choice, now, cmd);
    OthersWait(y, task, choice, now, y');
    if task.ObserveStart? && AwaitsStart(y.commands[cmd], task.station, task.connector) {
      ObservedStartConfirms(y, task, choice, now, cmd, y');
    }
  }

  lemma ObservedStartConfirms(y: System, task: Task, choice: Choice, now: int, cmd: CommandId, y': System)
    requires RemoteCommands.Sound(y) && task in y.tasks && task.ObserveStart? && ValidChoice(y, task, choice)
    requires cmd in y.commands && AwaitsStart(y.commands[cmd], task.station, task.connector)
    requires y' == Perform(Without(y, task), task, choice, now)
    ensures Confirm(cmd, Some(task.session)) in y'.tasks
  {
    var chosen := choice.command.value;
    if chosen != cmd { assert Clash(y.commands[chosen], y.commands[cmd]); }
  }

  lemma CheckCoversStart(y: System, cmd: CommandId, choice: Choice, now: int)
    requires CheckNow(cmd) in y.tasks && ValidChoice(y, CheckNow(cmd), choice) && cmd in y.commands
    ensures StartCovered(Perform(Without(y, CheckNow(cmd)), CheckNow(cmd), choice, now), cmd)
  {
    var y' := Perform(Without(y, CheckNow(cmd)), CheckNow(cmd), choice, now);
    if y.commands[cmd].kind.StartCommand? && choice.session.Some? {
      assert Confirm(cmd, choice.session) in y'.tasks;
    }
  }

  lemma QuietTaskKeepsStart(y: System, task: Task, choice: Choice, now: int, y': System)
    requires task.Dispatch? || task.AwaitAnswer? || task.Confirm? || task.Expire?
    requires task in y.tasks && task.cmd in y.commands && StartCovered(y, task.cmd)
    requires y' == Perform(Without(y, task), task, choice, now) && task.cmd in y'.commands
    ensures StartCovered(y', task.cmd)
  {
    QuietRow(Without(y, task), task, choice, now);
    if y'.commands[task.cmd].state == Accepted { OthersWait(y, task, choice, now, y'); }
  }

  lemma OwnTaskKeepsStart(y: System, task: Task, choice: Choice, now: int, cmd: CommandId, y': System)
    requires task in y.tasks && ValidChoice(y, task, choice) && cmd in y.commands && StartCovered(y, cmd)
    requires !task.ObserveStart? && !task.ObserveStop? && task.cmd == cmd && !AcceptsUnwatched(y, task, cmd)
    requires y' == Perform(Without(y, task), task, choice, now) && cmd in y'.commands
    ensures StartCovered(y', cmd)
  {
    if task.Settle? {
      if y'.commands[cmd].state == Accepted {
        OthersWait(y, task, choice, now, y');
        SettledOrSame(y, task, choice, now, y');
      }
    } else if task.RegisterAccepted? {
      assert CheckNow(cmd) in y'.tasks;
    } else if task.CheckNow? {
      CheckCoversStart(y, cmd, choice, now);
    } else {
      QuietTaskKeepsStart(y, task, choice, now, y');
    }
  }

  // ---------------------------------------------------------------- session changes

  /** Without resuming, only a creation makes a session run, and then the new one. */
  lemma RunsOnlyIfCreated(t: Tables, op: Op, now: int, s: SessionId)
    requires Sessions.Valid(t) && Callable(op) && !(op.Move? && op.target == Active)
    requires s in Apply(t, op, now).sessions && Apply(t, op, now).sessions[s].status == Active
    ensures (s in t.sessions && t.sessions[s].status == Active) || (op.Create? && s == t.next)
  {
    match op
    case Create(_) =>
    case Record(_, _) =>
    case Stop(_, _, _, _) =>
    case Fail(_, _) =>
    case Cancel(_, _) =>
    case Move(_, _) =>
  }

  lemma NewRowIs(t: Tables, input: CreateInput, now: int)
    requires Sessions.Valid(t) && t.next in Apply(t, Create(input), now).sessions
    ensures Apply(t, Create(input), now).sessions[t.next].station == input.station
    ensures Apply(t, Create(input), now).sessions[t.next].connector == input.connector
  {
  }

  /** A start answered after an operation was answered before it, or by the session just created. */
  lemma AnsweredOverOp(t: Tables, op: Op, now: int, c: Command)
    requires Sessions.Valid(t) && Callable(op) && !(op.Move? && op.target == Active)
    requires Answered(Apply(t, op, now), c)
    ensures Answered(t, c) || (op.Create? && op.input.station == c.station && Some(op.input.connector) == c.connector)
  {
    var s :| s in Apply(t, op, now).sessions && Answers(c, Apply(t, op, now).sessions[s]);
    RunsOnlyIfCreated(t, op, now, s);
    if s in t.sessions {
      ApplyKeepsRow(t, op, now, s);
      assert Answers(c, t.sessions[s]);
    } else {
      NewRowIs(t, op.input, now);
    }
  }

  lemma OpKeepsStart(y: System, op: Op, now: int, cmd: CommandId, y': System)
    requires RemoteCommands.Sound(y) && Callable(op) && !(op.Move? && op.target == Active)
    requires cmd in y.commands && StartCovered(y, cmd)
    requires y'.commands == y.commands && y'.tables == Apply(y.tables, op, now)
    requires forall task :: task in y.tasks ==> task in y'.tasks
    requires op.Create? ==> exists s :: ObserveStart(op.input.station, op.input.connector, s) in y'.tasks
    ensures StartCovered(y', cmd)
  {
    if Answered(y'.tables, y.commands[cmd]) { AnsweredOverOp(y.tables, op, now, y.commands[cmd]); }
  }

  // ---------------------------------------------------------------- every step and every run

  lemma MessageKeepsStart(y: System, e: Event, now: int, cmd: CommandId, y': System)
    requires RemoteCommands.Sound(y) && RemoteCommands.Enabled(y, e)
    requires e.StartTransaction? || e.StopTransaction? || (e.SessionChange? && !(e.op.Move? && e.op.target == Active))
    requires cmd in y.commands && StartCovered(y, cmd) && y' == RemoteCommands.Step(y, e, now)
    ensures cmd in y'.commands && StartCovered(y', cmd)
  {
    if e.StartTransaction? {
      assert ObserveStart(e.input.station, e.input.connector, Answer(y.tables, Create(e.input), now).id) in y'.tasks;
      OpKeepsStart(y, Create(e.input), now, cmd, y');
    } else if e.SessionChange? {
      OpKeepsStart(y, e.op, now, cmd, y');
    } else if y' != y {
      OpKeepsStart(y, Stop(e.session, e.meterStop, e.reason, e.endedAt), now, cmd, y');
    }
  }

  lemma OtherEventKeepsStart(y: System, e: Event, now: int, cmd: CommandId, y': System)
    requires RemoteCommands.Sound(y) && (e.Ask? || e.TimerFires?) && RemoteCommands.Enabled(y, e)
    requires y' == RemoteCommands.Step(y, e, now) && cmd in y'.commands && (cmd in y.commands ==> StartCovered(y, cmd))
    ensures StartCovered(y', cmd)
  {
    if cmd in y.commands && e.Ask? { assert cmd != y.next; }
    assert forall task :: task in y.tasks ==> task in y'.tasks;
  }

  lemma TaskKeepsStart(y: System, e: Event, now: int, cmd: CommandId, y': System)
    requires RemoteCommands.Sound(y) && e.Continue? && RemoteCommands.Enabled(y, e) && !AcceptsUnwatched(y, e.task, cmd)
    requires y' == RemoteCommands.Step(y, e, now) && cmd in y'.commands && (cmd in y.commands ==> StartCovered(y, cmd))
    ensures StartCovered(y', cmd)
  {
    WithoutMoves(y, e.task, e.choice, now, cmd);
    PerformMoves(Without(y, e.task), e.task, e.choice, now, cmd);
    if e.task.ObserveStart? || e.task.ObserveStop? || e.task.cmd != cmd {
      StartElsewhere(y, e.task, e.choice, now, cmd, y');
    } else {
      OwnTaskKeepsStart(y, e.task, e.choice, now, cmd, y');
    }
  }

  // ---------------------------------------------------------------- resuming

  /** What bringing a session back changes: that session runs if it was away, and nothing else. */
  lemma ResumptionIs(t: Tables, s: SessionId, now: int)
    requires Sessions.Valid(t)
    ensures var t' := Apply(t, Move(s, Active), now);
      if s in t.sessions && (t.sessions[s].status == Offline || t.sessions[s].status == Suspended)
      then t'.sessions == t.sessions[s := t.sessions[s].(status := Active, updatedAt := now)]
      else t' == t
  {
    if s in t.sessions { assert RowWise(t.sessions[s], t.rows[s]); }
  }

  lemma ResumptionCoversIff(y: System, s: SessionId, now: int, cmd: CommandId)
    requires RemoteCommands.Sound(y) && cmd in y.commands && StartCovered(y, cmd)
    ensures var e := SessionChange(Move(s, Active));
      var y' := RemoteCommands.Step(y, e, now);
      cmd in y'.commands && (StartCovered(y', cmd) <==> !Misses(y, e, cmd))
  {
    var y' := RemoteCommands.Step(y, SessionChange(Move(s, Active)), now);
    var c := y.commands[cmd];
    ResumptionIs(y.tables, s, now);
    assert CommandSound(y.tables, c);
    assert y'.commands == y.commands && y'.tasks == y.tasks && y'.tables == Apply(y.tables, Move(s, Active), now);
    if s in y.tables.sessions && AwayFor(c, y.tables.sessions[s]) {
      assert Answers(c, y'.tables.sessions[s]);
    } else if c.state == Accepted && Answered(y'.tables, c) {
      var other :| other in y'.tables.sessions && Answers(c, y'.tables.sessions[other]);
      assert Answers(c, y.tables.sessions[other]);
    }
  }

  // ---------------------------------------------------------------- every step and every run

  lemma StartLateAcceptanceIff(y: System, choice: Choice, now: int, cmd: CommandId)
    requires RemoteCommands.Sound(y) && Settle(cmd, ChargerAccepts) in y.tasks
    requires AcceptsUnwatched(y, Settle(cmd, ChargerAccepts), cmd)
    ensures var e := Continue(Settle(cmd, ChargerAccepts), choice);
      var y' := RemoteCommands.Step(y, e, now);
      cmd in y'.commands && (StartCovered(y', cmd) <==> !Misses(y, e, cmd))
  {
    var y' := RemoteCommands.Step(y, Continue(Settle(cmd, ChargerAccepts), choice), now);
    AcceptedUnwatchedIs(y, cmd, choice, now, y');
    assert CommandSound(y.tables, y.commands[cmd]);
    AnsweredAlike(y.tables, y.commands[cmd], y'.commands[cmd]);
  }

  lemma AnsweredAlike(t: Tables, c: Command, c': Command)
    requires c'.kind == c.kind && c'.station == c.station && c'.connector == c.connector
    requires c'.requestedAt == c.requestedAt
    ensures Answered(t, c) <==> Answered(t, c')
  {
    assert forall s :: s in t.sessions ==> (Answers(c, t.sessions[s]) <==> Answers(c', t.sessions[s]));
  }

  /** Exactly two things in a process life uncover a start while nothing that would confirm it is
      waiting: its own charge, away until now, coming back, and an acceptance that nobody registers
      while its charge is running. */
  lemma {:induction false} StepStartIff(y: System, e: Event, now: int, cmd: CommandId)
    requires RemoteCommands.Sound(y) && !e.ProcessRestart? && cmd in y.commands && StartCovered(y, cmd)
    ensures cmd in RemoteCommands.Step(y, e, now).commands
    ensures StartCovered(RemoteCommands.Step(y, e, now), cmd) <==> !Misses(y, e, cmd)
  {
    StepMoves(y, e, now, cmd);
    if e.SessionChange? && e.op.Move? && e.op.target == Active {
      ResumptionCoversIff(y, e.op.moved, now, cmd);
    } else if e.Continue? && e.task in y.tasks && AcceptsUnwatched(y, e.task, cmd) {
      StartLateAcceptanceIff(y, e.choice, now, cmd);
    } else {
      StepStartKept(y, e, now, cmd, RemoteCommands.Step(y, e, now));
    }
  }

  lemma StepStartKept(y: System, e: Event, now: int, cmd: CommandId, y': System)
    requires RemoteCommands.Sound(y) && !e.ProcessRestart? && !(e.SessionChange? && e.op.Move? && e.op.target == Active)
    requires !(e.Continue? && e.task in y.tasks && AcceptsUnwatched(y, e.task, cmd))
    requires y' == RemoteCommands.Step(y, e, now) && cmd in y'.commands && (cmd in y.commands ==> StartCovered(y, cmd))
    ensures StartCovered(y', cmd)
  {
    if !RemoteCommands.Enabled(y, e) { return; }
    if e.Continue? {
      TaskKeepsStart(y, e, now, cmd, y');
    } else if e.Ask? || e.TimerFires? {
      OtherEventKeepsStart(y, e, now, cmd, y');
    } else {
      MessageKeepsStart(y, e, now, cmd, y');
    }
  }

  /** No step of the run is one of those two for the start. */
  ghost predicate NeverMisses(y: System, life: seq<RemoteCommands.Timed>, cmd: CommandId) {
    life != [] ==>
      var z, e := RemoteCommands.Run(y, life[..|life| - 1]), life[|life| - 1].e;
      NeverMisses(y, life[..|life| - 1], cmd) && (cmd in z.commands ==> !Misses(z, e, cmd))
  }

  /** No missed start: for a start requested in a process life, whatever came before it, while it is
      ACCEPTED and a charge that answers it is running, a step that will confirm it is waiting,
      unless one of those two steps was taken. Every other resumption is allowed. */
  lemma {:induction false} NoMissedStart(y: System, life: seq<RemoteCommands.Timed>, cmd: CommandId)
    requires RemoteCommands.Sound(y) && OneLife(life) && cmd in RemoteCommands.Run(y, life).commands
    requires (cmd in y.commands ==> StartCovered(y, cmd)) && NeverMisses(y, life, cmd)
    ensures StartCovered(RemoteCommands.Run(y, life), cmd)
    decreases |life|
  {
    if life != [] {
      var init, last := life[..|life| - 1], life[|life| - 1];
      RemoteCommands.RunSound(y, init);
      var z := RemoteCommands.Run(y, init);
      if cmd in z.commands {
        NoMissedStart(y, init, cmd);
        StepStartIff(z, last.e, last.now, cmd);
      } else {
        NewIsRequested(z, last.e, last.now, cmd);
      }
    }
  }

  // ---------------------------------------------------------------- a reachable instance

  function StartOf(state: State): Command {
    Command(1, Some(7), None, StartCommand, state, 1, None, true)
  }

  function StartRequest(): Request {
    Request(1, Some(7), None, StartCommand, Some(Usable("tag")), true, true)
  }

  /** The charge began after the request and went away before the answer. */
  ghost function Away(): Tables {
    Apply(Apply(NO_SESSIONS, Create(CreateInput(1, 7, 0, 5)), 5), Move(0, Offline), 6)
  }

  lemma AwayIs()
    ensures Away().sessions == map[0 := NewSession(CreateInput(1, 7, 0, 5), 5).(status := Offline, updatedAt := 6)]
  {
    var begun := Apply(NO_SESSIONS, Create(CreateInput(1, 7, 0, 5)), 5);
    assert begun.sessions == map[0 := NewSession(CreateInput(1, 7, 0, 5), 5)];
  }

  lemma StartAsked()
    ensures Reachable(System(NO_SESSIONS, map[0 := StartOf(Requested)], 1, {}, multiset{Dispatch(0)}))
  {
    assert RemoteCommands.Run(INITIALLY, []) == INITIALLY;
    assert Asked(NO_SESSIONS, StartRequest(), 1) == StartOf(Requested);
    assert RefusalOf(INITIALLY, StartRequest(), 1) == None;
    ReachStep(INITIALLY, Ask(StartRequest()), 1,
      System(NO_SESSIONS, map[0 := StartOf(Requested)], 1, {}, multiset{Dispatch(0)}));
  }

  lemma BegunAndAway()
    ensures Reachable(System(Away(), map[0 := StartOf(Requested)], 1, {}, multiset{Dispatch(0)}))
  {
    StartAsked();
    var y := System(NO_SESSIONS, map[0 := StartOf(Requested)], 1, {}, multiset{Dispatch(0)});
    var input := CreateInput(1, 7, 0, 5);
    var begun := Apply(NO_SESSIONS, Create(input), 5);
    var noticed := y.(tables := begun, tasks := multiset{Dispatch(0), ObserveStart(1, 7, 0)});
    ReachStep(y, StartTransaction(input), 5, noticed);
    var observed := y.(tables := begun);
    assert noticed.tasks - multiset{ObserveStart(1, 7, 0)} == multiset{Dispatch(0)};
    ReachStep(noticed, Continue(ObserveStart(1, 7, 0), ANY_CHOICE), 5, observed);
    ReachStep(observed, SessionChange(Move(0, Offline)), 6, observed.(tables := Away()));
  }

  lemma CheckedWhileAway()
    ensures Reachable(System(Away(), map[0 := StartOf(Accepted)], 1, {0}, multiset{}))
  {
    BegunAndAway();
    AwayIs();
    var asked := System(Away(), map[0 := StartOf(Requested)], 1, {}, multiset{Dispatch(0)});
    var sent := System(Away(), map[0 := StartOf(Sent)], 1, {}, multiset{Settle(0, ChargerAccepts)});
    assert map[0 := StartOf(Requested)][0 := StartOf(Sent)] == map[0 := StartOf(Sent)];
    AnswerArrives(asked, 0, 7, sent);
    var accepted := System(Away(), map[0 := StartOf(Accepted)], 1, {}, multiset{RegisterAccepted(0)});
    ReachTask(sent, Settle(0, ChargerAccepts), ANY_CHOICE, 7, accepted);
    var registered := accepted.(timers := {0}, tasks := multiset{CheckNow(0)});
    ReachTask(accepted, RegisterAccepted(0), ANY_CHOICE, 7, registered);
    ReachTask(registered, CheckNow(0), ANY_CHOICE, 7, registered.(tasks := multiset{}));
  }

  /** A charge that begins before the answer, is away during the check and then comes back: the
      start is ACCEPTED, its charge is running, and nothing but its timer is left. */
  lemma ResumedStartIsMissed()
    ensures exists y ::
      Reachable(y) && y.commands == map[0 := StartOf(Accepted)] && Answered(y.tables, StartOf(Accepted))
      && y.tasks == multiset{} && y.timers == {0}
  {
    CheckedWhileAway();
    AwayIs();
    var y := System(Away(), map[0 := StartOf(Accepted)], 1, {0}, multiset{});
    var back := y.(tables := Apply(Away(), Move(0, Active), 8));
    ReachStep(y, SessionChange(Move(0, Active)), 8, back);
    assert 0 in back.tables.sessions && Answers(StartOf(Accepted), back.tables.sessions[0]);
  }
}
