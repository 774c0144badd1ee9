/** When an accepted stop can be missed: exactly when another stop for the same session can be
    accepted beside it, which takes a request naming another connector than the session's, or when
    it can still be accepted with nobody registering it. */
module CommandRaces {
  import opened Common
  import opened Sessions
  import opened RemoteCommands
  import opened CommandOutcomes
  import opened CommandLimits

  const ANY_CHOICE := Choice(true, NoAnswer, None, None)

  predicate StopFor(c: Command, session: SessionId) {
    c.kind.StopCommand? && c.session == Some(session)
  }

  /** The command is accepted, or what is waiting for it can still make it so. */
  ghost predicate Acceptable(y: System, cmd: CommandId)
    requires cmd in y.commands
  {
    match y.commands[cmd].state
    case Requested => Dispatch(cmd) in y.tasks || AwaitAnswer(cmd) in y.tasks
    case Sent => Settle(cmd, ChargerAccepts) in y.tasks
    case Accepted => true
    case _ => false
  }

  /** The stop is ACCEPTED, its session COMPLETED, and nothing waiting will confirm it. */
  ghost predicate Missed(y: System, cmd: CommandId, session: SessionId) {
    && cmd in y.commands && StopFor(y.commands[cmd], session) && y.commands[cmd].state == Accepted
    && CompletedIn(y.tables, session) && !WillConfirm(y, cmd, session)
  }

  /** What can follow in the same process life without a further request. */
  ghost predicate Quietly(es: seq<RemoteCommands.Timed>) {
    forall k :: 0 <= k < |es| ==> !es[k].e.ProcessRestart? && !es[k].e.Ask?
  }

  /** Something that can follow without a further request misses the stop. */
  ghost predicate CanBeMissed(y: System, cmd: CommandId, session: SessionId) {
    exists es :: Quietly(es) && Missed(RemoteCommands.Run(y, es), cmd, session)
  }

  ghost predicate HasRival(y: System, cmd: CommandId, session: SessionId) {
    exists i :: i in y.commands && i != cmd && StopFor(y.commands[i], session) && Acceptable(y, i)
  }

  // ---------------------------------------------------------------- without a rival nothing is missed

  /** Only an answer makes a command SENT and only an accepting one makes it ACCEPTED. */
  lemma MovedBy(y: System, task: Task, choice: Choice, now: int, cmd: CommandId)
    requires cmd in y.commands
    ensures var y' := Perform(y, task, choice, now);
      && cmd in y'.commands
      && (y'.commands[cmd].state == Sent && y.commands[cmd].state != Sent ==> task == AwaitAnswer(cmd))
      && (y'.commands[cmd].state == Accepted && y.commands[cmd].state != Accepted ==>
        task == Settle(cmd, ChargerAccepts))
  {
    match task
    case Dispatch(_) =>
    case AwaitAnswer(_) =>
    case Settle(_, _) =>
    case RegisterAccepted(_) =>
    case CheckNow(_) =>
    case ObserveStart(_, _, _) =>
    case ObserveStop(_) =>
    case Confirm(_, _) =>
    case Expire(_) =>
  }

  lemma UnacceptableRow(y: System, task: Task, choice: Choice, now: int, cmd: CommandId)
    requires cmd in y.commands && !Acceptable(y, cmd) && task in y.tasks
    ensures var y' := Perform(Without(y, task), task, choice, now);
      cmd in y'.commands && (y'.commands[cmd].state == y.commands[cmd].state || Resolved(y'.commands[cmd].state))
  {
    PerformMoves(Without(y, task), task, choice, now, cmd);
    MovedBy(Without(y, task), task, choice, now, cmd);
  }

  lemma NoSettleOfSent(y: System, task: Task, choice: Choice, now: int, cmd: CommandId)
    requires cmd in y.commands && y.commands[cmd].state == Sent && Settle(cmd, ChargerAccepts) !in y.tasks
    ensures Settle(cmd, ChargerAccepts) !in Perform(Without(y, task), task, choice, now).tasks
  {
    assert Settle(cmd, ChargerAccepts) !in Without(y, task).tasks;
  }

  lemma UnacceptableTasks(y: System, task: Task, choice: Choice, now: int, cmd: CommandId)
    requires cmd in y.commands && !Acceptable(y, cmd) && task in y.tasks
    ensures var y' := Perform(Without(y, task), task, choice, now);
      && (y.commands[cmd].state == Requested ==> Dispatch(cmd) !in y'.tasks && AwaitAnswer(cmd) !in y'.tasks)
      && (y.commands[cmd].state == Sent ==> Settle(cmd, ChargerAccepts) !in y'.tasks)
  {
    var y' := Perform(Without(y, task), task, choice, now);
    if y.commands[cmd].state == Sent { NoSettleOfSent(y, task, choice, now, cmd); }
    if y.commands[cmd].state == Requested {
      forall other | other in y'.tasks ensures other != Dispatch(cmd) && other != AwaitAnswer(cmd) {
        Spawned(y, task, choice, now, other);
      }
    }
  }

  lemma UnacceptableStep(y: System, e: Event, now: int, cmd: CommandId)
    requires RemoteCommands.Sound(y) && cmd in y.commands && !Acceptable(y, cmd) && !e.ProcessRestart? && !e.Ask?
    ensures cmd in RemoteCommands.Step(y, e, now).commands && !Acceptable(RemoteCommands.Step(y, e, now), cmd)
  {
    if !RemoteCommands.Enabled(y, e) { return; }
    if e.Continue? {
      UnacceptableRow(y, e.task, e.choice, now, cmd);
      UnacceptableTasks(y, e.task, e.choice, now, cmd);
    } else {
      NoAnswerQueued(y, e, now);
    }
  }

  lemma NoAnswerQueued(y: System, e: Event, now: int)
    requires RemoteCommands.Enabled(y, e) && !e.Continue? && !e.Ask? && !e.ProcessRestart?
    ensures var y' := RemoteCommands.Step(y, e, now);
      && y'.commands == y.commands
      && forall task :: task in y'.tasks && task !in y.tasks ==> task.Expire? || task.ObserveStart? || task.ObserveStop?
  {
  }

  lemma NothingNew(y: System, e: Event, now: int, cmd: CommandId)
    requires RemoteCommands.Sound(y) && !e.Ask? && cmd in RemoteCommands.Step(y, e, now).commands
    ensures cmd in y.commands
  {
    if RemoteCommands.Enabled(y, e) && e.Continue? { WithoutMoves(y, e.task, e.choice, now, cmd); }
  }

  lemma RivalsStayAway(y: System, e: Event, now: int, cmd: CommandId, session: SessionId)
    requires RemoteCommands.Sound(y) && !e.ProcessRestart? && !e.Ask? && !HasRival(y, cmd, session)
    ensures !HasRival(RemoteCommands.Step(y, e, now), cmd, session)
  {
    var y' := RemoteCommands.Step(y, e, now);
    forall i | i in y'.commands && i != cmd && StopFor(y'.commands[i], session) ensures !Acceptable(y', i) {
      NothingNew(y, e, now, i);
      StepMoves(y, e, now, i);
      assert CommandSound(y.tables, y.commands[i]);
      UnacceptableStep(y, e, now, i);
    }
  }

  /** The stop is still to be accepted and nobody will register it then. */
  predicate Unregistered(c: Command) {
    !c.watched && (c.state == Requested || c.state == Sent)
  }

  lemma AloneWithoutRival(y: System, cmd: CommandId, session: SessionId)
    requires cmd in y.commands && StopFor(y.commands[cmd], session) && !HasRival(y, cmd, session)
    ensures Alone(y, cmd)
  {
    forall i | i in y.commands && i != cmd ensures !Rivals(y.commands[i], y.commands[cmd]) {
      assert StopFor(y.commands[i], session) ==> !Acceptable(y, i);
    }
  }

  /** With no rival the stop stays covered, whatever follows without a further request. */
  lemma {:induction false} UnrivalledIsCovered(y: System, es: seq<RemoteCommands.Timed>, cmd: CommandId,
                                               session: SessionId)
    requires RemoteCommands.Sound(y) && Quietly(es) && cmd in y.commands && StopFor(y.commands[cmd], session)
    requires StopCovered(y, cmd) && !HasRival(y, cmd, session) && !Unregistered(y.commands[cmd])
    ensures var z := RemoteCommands.Run(y, es);
      && cmd in z.commands && StopFor(z.commands[cmd], session) && StopCovered(z, cmd) && !HasRival(z, cmd, session)
      && !Unregistered(z.commands[cmd])
    decreases |es|
  {
    if es != [] {
      var init, last := es[..|es| - 1], es[|es| - 1];
      UnrivalledIsCovered(y, init, cmd, session);
      RemoteCommands.RunSound(y, init);
      var z := RemoteCommands.Run(y, init);
      StepMoves(z, last.e, last.now, cmd);
      AloneWithoutRival(z, cmd, session);
      StepCoveredIff(z, last.e, last.now, cmd);
      RivalsStayAway(z, last.e, last.now, cmd, session);
    }
  }

  lemma {:induction false} UnacceptableNeverAccepted(y: System, es: seq<RemoteCommands.Timed>, cmd: CommandId)
    requires RemoteCommands.Sound(y) && Quietly(es) && cmd in y.commands && !Acceptable(y, cmd)
    ensures cmd in RemoteCommands.Run(y, es).commands && !Acceptable(RemoteCommands.Run(y, es), cmd)
    decreases |es|
  {
    if es != [] {
      var init, last := es[..|es| - 1], es[|es| - 1];
      UnacceptableNeverAccepted(y, init, cmd);
      RemoteCommands.RunSound(y, init);
      UnacceptableStep(RemoteCommands.Run(y, init), last.e, last.now, cmd);
    }
  }

  // ---------------------------------------------------------------- with a rival it can be

  /** The tasks queued since then are steps of answers, and the command's registration if somebody
      registers it. */
  ghost predicate OnlyAnswers(y: System, y': System, cmd: CommandId)
    requires cmd in y.commands
  {
    forall task :: task in y'.tasks && task !in y.tasks ==>
      task.AwaitAnswer? || task.Settle? || (task == RegisterAccepted(cmd) && y.commands[cmd].watched)
  }

  /** Only the command itself moved, and no other command's waiting tasks were touched. */
  ghost predicate OnlyMoved(y: System, y': System, cmd: CommandId)
    requires cmd in y.commands
  {
    && y'.tables == y.tables && y'.commands.Keys == y.commands.Keys && OnlyAnswers(y, y', cmd)
    && (forall i :: i in y.commands && i != cmd ==>
          y'.commands[i] == y.commands[i] && (Acceptable(y, i) ==> Acceptable(y', i)))
    && y'.commands[cmd].(state := Requested) == y.commands[cmd].(state := Requested)
    && (forall task :: task in y.tasks && (task.ObserveStop? || task.ObserveStart?) ==> task in y'.tasks)
  }

  // The steps of a command that is answered favourably.

  lemma FavourableDispatch(y: System, cmd: CommandId, now: int)
    requires cmd in y.commands && y.commands[cmd].state == Requested && Dispatch(cmd) in y.tasks
    ensures var y' := RemoteCommands.Step(y, Continue(Dispatch(cmd), ANY_CHOICE), now);
      OnlyMoved(y, y', cmd) && y'.commands == y.commands && AwaitAnswer(cmd) in y'.tasks
  {
    var y' := RemoteCommands.Step(y, Continue(Dispatch(cmd), ANY_CHOICE), now);
    OthersWait(y, Dispatch(cmd), ANY_CHOICE, now, y');
    AnswersOnly(y, Dispatch(cmd), ANY_CHOICE, now, y', cmd);
    OnlyItMoved(y, Dispatch(cmd), y', cmd);
  }

  lemma FavourableAnswer(y: System, cmd: CommandId, now: int)
    requires cmd in y.commands && y.commands[cmd].state == Requested && AwaitAnswer(cmd) in y.tasks
    ensures var y' := RemoteCommands.Step(y, Continue(AwaitAnswer(cmd), ANY_CHOICE.(outcome := ChargerAccepts)), now);
      OnlyMoved(y, y', cmd) && y'.commands[cmd].state == Sent && Settle(cmd, ChargerAccepts) in y'.tasks
  {
    var choice := ANY_CHOICE.(outcome := ChargerAccepts);
    var y' := RemoteCommands.Step(y, Continue(AwaitAnswer(cmd), choice), now);
    assert y'.commands == y.commands[cmd := y.commands[cmd].(state := Sent)];
    OthersWait(y, AwaitAnswer(cmd), choice, now, y');
    AnswersOnly(y, AwaitAnswer(cmd), choice, now, y', cmd);
    OnlyItMoved(y, AwaitAnswer(cmd), y', cmd);
  }

  lemma FavourableSettling(y: System, cmd: CommandId, now: int)
    requires cmd in y.commands && y.commands[cmd].state == Sent && Settle(cmd, ChargerAccepts) in y.tasks
    ensures var y' := RemoteCommands.Step(y, Continue(Settle(cmd, ChargerAccepts), ANY_CHOICE), now);
      OnlyMoved(y, y', cmd) && y'.commands[cmd].state == Accepted
  {
    var task := Settle(cmd, ChargerAccepts);
    var y' := RemoteCommands.Step(y, Continue(task, ANY_CHOICE), now);
    assert y'.commands == y.commands[cmd := y.commands[cmd].(state := Accepted)];
    OthersWait(y, task, ANY_CHOICE, now, y');
    AnswersOnly(y, task, ANY_CHOICE, now, y', cmd);
    OnlyItMoved(y, task, y', cmd);
  }

  lemma AnswersOnly(y: System, task: Task, choice: Choice, now: int, y': System, cmd: CommandId)
    requires cmd in y.commands && task in y.tasks && y' == Perform(Without(y, task), task, choice, now)
    requires task == Dispatch(cmd) || task == AwaitAnswer(cmd) || task == Settle(cmd, ChargerAccepts)
    ensures OnlyAnswers(y, y', cmd) && y'.tables == y.tables
  {
    assert forall other :: other in Without(y, task).tasks ==> other in y.tasks;
  }

  lemma OnlyItMoved(y: System, task: Task, y': System, cmd: CommandId)
    requires cmd in y.commands && OthersWaiting(y, y', task) && OnlyAnswers(y, y', cmd) && y'.tables == y.tables
    requires (task.Dispatch? || task.AwaitAnswer? || task.Settle?) && task.cmd == cmd
    requires cmd in y'.commands && y'.commands == y.commands[cmd := y.commands[cmd].(state := y'.commands[cmd].state)]
    ensures OnlyMoved(y, y', cmd)
  {
  }

  lemma QuietlyThen(y: System, es: seq<RemoteCommands.Timed>, e: Event,
                    now: int)
    returns (longer: seq<RemoteCommands.Timed>)
    requires Quietly(es) && !e.ProcessRestart? && !e.Ask?
    ensures Quietly(longer) && RemoteCommands.Run(y, longer) == RemoteCommands.Step(RemoteCommands.Run(y, es), e, now)
  {
    longer := es + [RemoteCommands.Timed.Timed(e, now)];
    RunThen(y, es, e, now);
  }

  lemma QuietlyBoth(y: System, a: seq<RemoteCommands.Timed>, b: seq<RemoteCommands.Timed>)
    requires Quietly(a) && Quietly(b)
    ensures Quietly(a + b) && RemoteCommands.Run(y, a + b) == RemoteCommands.Run(RemoteCommands.Run(y, a), b)
  {
    RunSplit(y, a, b);
  }

  lemma OnlyMovedTwice(y: System, y': System, y'': System, cmd: CommandId)
    requires cmd in y.commands && OnlyMoved(y, y', cmd) && OnlyMoved(y', y'', cmd)
    ensures OnlyMoved(y, y'', cmd)
  {
  }

  /** A command that can be accepted can be accepted without disturbing any other. */
  lemma {:induction false} Accept(y: System, cmd: CommandId, now: int) returns (es: seq<RemoteCommands.Timed>)
    requires cmd in y.commands && Acceptable(y, cmd)
    ensures Quietly(es) && OnlyMoved(y, RemoteCommands.Run(y, es), cmd)
    ensures RemoteCommands.Run(y, es).commands[cmd].state == Accepted
  {
    es := [];
    var z := y;
    if z.commands[cmd].state == Requested && AwaitAnswer(cmd) !in z.tasks {
      FavourableDispatch(z, cmd, now);
      es := QuietlyThen(y, es, Continue(Dispatch(cmd), ANY_CHOICE), now);
      z := RemoteCommands.Run(y, es);
    }
    if z.commands[cmd].state == Requested {
      FavourableAnswer(z, cmd, now);
      es := QuietlyThen(y, es, Continue(AwaitAnswer(cmd), ANY_CHOICE.(outcome := ChargerAccepts)), now);
      OnlyMovedTwice(y, z, RemoteCommands.Run(y, es), cmd);
      z := RemoteCommands.Run(y, es);
    }
    if z.commands[cmd].state == Sent {
      FavourableSettling(z, cmd, now);
      es := QuietlyThen(y, es, Continue(Settle(cmd, ChargerAccepts), ANY_CHOICE), now);
      OnlyMovedTwice(y, z, RemoteCommands.Run(y, es), cmd);
    }
  }

  ghost predicate Checked(y: System, cmd: CommandId) {
    RegisterAccepted(cmd) !in y.tasks && CheckNow(cmd) !in y.tasks
  }

  ghost function Unchecked(y: System, cmd: CommandId): nat {
    2 * y.tasks[RegisterAccepted(cmd)] + y.tasks[CheckNow(cmd)]
  }

  lemma RegisterStep(y: System, cmd: CommandId, now: int)
    requires RegisterAccepted(cmd) in y.tasks
    ensures var y' := RemoteCommands.Step(y, Continue(RegisterAccepted(cmd), ANY_CHOICE), now);
      Unchecked(y', cmd) < Unchecked(y, cmd) && y'.tables == y.tables && y'.commands == y.commands
  {
    assert Without(y, RegisterAccepted(cmd)).tasks[RegisterAccepted(cmd)] == y.tasks[RegisterAccepted(cmd)] - 1;
  }

  lemma CheckStep(y: System, cmd: CommandId, session: SessionId, now: int)
    requires CheckNow(cmd) in y.tasks && cmd in y.commands && StopFor(y.commands[cmd], session)
    requires !CompletedIn(y.tables, session)
    ensures var y' := RemoteCommands.Step(y, Continue(CheckNow(cmd), ANY_CHOICE), now);
      Unchecked(y', cmd) < Unchecked(y, cmd) && y'.tables == y.tables && y'.commands == y.commands
  {
    assert Without(y, CheckNow(cmd)).tasks[CheckNow(cmd)] == y.tasks[CheckNow(cmd)] - 1;
  }

  /** Registration and the immediate check run in vain while the session is not completed. */
  lemma {:induction false} CheckInVain(y: System, cmd: CommandId, session: SessionId,
                                       now: int)
    returns (es: seq<RemoteCommands.Timed>)
    requires cmd in y.commands && StopFor(y.commands[cmd], session) && !CompletedIn(y.tables, session)
    ensures var z := RemoteCommands.Run(y, es);
      Quietly(es) && Checked(z, cmd) && z.tables == y.tables && z.commands == y.commands
    decreases Unchecked(y, cmd)
  {
    es := [];
    if !Checked(y, cmd) {
      var e := Continue(if RegisterAccepted(cmd) in y.tasks then RegisterAccepted(cmd) else CheckNow(cmd), ANY_CHOICE);
      if RegisterAccepted(cmd) in y.tasks { RegisterStep(y, cmd, now); } else { CheckStep(y, cmd, session, now); }
      var first := QuietlyThen(y, [], e, now);
      var rest := CheckInVain(RemoteCommands.Step(y, e, now), cmd, session, now);
      QuietlyBoth(y, first, rest);
      es := first + rest;
    }
  }

  /** Nothing of the command's own is waiting that would confirm it. */
  ghost predicate NoOwnWay(y: System, cmd: CommandId) {
    Checked(y, cmd) && Confirm(cmd, None) !in y.tasks
  }

  function Observing(rival: CommandId): Choice {
    ANY_CHOICE.(command := Some(rival))
  }

  /** One observation of the session's stop confirms the rival. */
  lemma RivalTakesOne(y: System, cmd: CommandId, rival: CommandId, session: SessionId, now: int)
    requires ObserveStop(session) in y.tasks && rival != cmd && NoOwnWay(y, cmd)
    requires rival in y.commands && AwaitsStop(y.commands[rival], session)
    ensures var y' := RemoteCommands.Step(y, Continue(ObserveStop(session), Observing(rival)), now);
      && y'.tables == y.tables && y'.commands == y.commands && NoOwnWay(y', cmd)
      && y'.tasks[ObserveStop(session)] < y.tasks[ObserveStop(session)]
  {
    var y1 := Without(y, ObserveStop(session));
    assert y1.tasks[ObserveStop(session)] == y.tasks[ObserveStop(session)] - 1;
    assert forall task :: task !in y.tasks ==> task !in y1.tasks;
  }

  /** The rival takes every observation that is waiting. */
  lemma {:induction false} RivalTakesAll(y: System, cmd: CommandId, rival: CommandId, session: SessionId, now: int)
    returns (es: seq<RemoteCommands.Timed>)
    requires cmd in y.commands && StopFor(y.commands[cmd], session) && y.commands[cmd].state == Accepted
    requires rival in y.commands && AwaitsStop(y.commands[rival], session) && rival != cmd
    requires CompletedIn(y.tables, session) && NoOwnWay(y, cmd)
    ensures Quietly(es) && Missed(RemoteCommands.Run(y, es), cmd, session)
    decreases y.tasks[ObserveStop(session)]
  {
    es := [];
    if ObserveStop(session) in y.tasks {
      var e := Continue(ObserveStop(session), Observing(rival));
      RivalTakesOne(y, cmd, rival, session, now);
      var first := QuietlyThen(y, [], e, now);
      var rest := RivalTakesAll(RemoteCommands.Step(y, e, now), cmd, rival, session, now);
      QuietlyBoth(y, first, rest);
      es := first + rest;
    }
  }

  /** Stopping the session queues one observation of it and touches no command. */
  lemma StopIt(y: System, session: SessionId, now: int)
    requires RemoteCommands.Sound(y) && session in y.tables.sessions && !Terminal(y.tables.sessions[session].status)
    ensures var y' := RemoteCommands.Step(y, StopTransaction(session, 0, NormalCompletion, now), now);
      && CompletedIn(y'.tables, session) && y'.commands == y.commands
        && y'.tasks == y.tasks + multiset{ObserveStop(session)}
  {
    StopWorks(y.tables, session, Stop(session, 0, NormalCompletion, now), now);
  }

  /** Before the session is completed no confirmation of a stop for it is waiting. */
  lemma NotYetConfirmed(y: System, cmd: CommandId, session: SessionId)
    requires RemoteCommands.Sound(y) && cmd in y.commands && StopFor(y.commands[cmd], session)
    requires !CompletedIn(y.tables, session)
    ensures Confirm(cmd, None) !in y.tasks
  {
    assert !TaskSound(y.tables, y.commands, Confirm(cmd, None));
  }

  /** The session is stopped and the observation confirms the rival. */
  lemma RivalTakesObservation(y: System, cmd: CommandId, rival: CommandId, session: SessionId, now: int)
    returns (es: seq<RemoteCommands.Timed>)
    requires RemoteCommands.Sound(y) && cmd in y.commands && rival in y.commands && cmd != rival
    requires StopFor(y.commands[cmd], session) && y.commands[cmd].state == Accepted
    requires AwaitsStop(y.commands[rival], session) && Checked(y, cmd)
    requires session in y.tables.sessions && !Terminal(y.tables.sessions[session].status)
    ensures Quietly(es) && Missed(RemoteCommands.Run(y, es), cmd, session)
  {
    var stop := StopTransaction(session, 0, NormalCompletion, now);
    StopIt(y, session, now);
    NotYetConfirmed(y, cmd, session);
    var first := QuietlyThen(y, [], stop, now);
    var rest := RivalTakesAll(RemoteCommands.Step(y, stop, now), cmd, rival, session, now);
    QuietlyBoth(y, first, rest);
    es := first + rest;
  }

  /** Accepted, checked in vain, and then the rival takes the observation. */
  lemma MissByRival(y: System, cmd: CommandId, session: SessionId, now: int) returns (es: seq<RemoteCommands.Timed>)
    requires RemoteCommands.Sound(y) && cmd in y.commands && StopFor(y.commands[cmd], session)
    requires session in y.tables.sessions && !Terminal(y.tables.sessions[session].status)
    requires Acceptable(y, cmd) && HasRival(y, cmd, session)
    ensures Quietly(es) && Missed(RemoteCommands.Run(y, es), cmd, session)
  {
    var rival, a := AcceptRival(y, cmd, session, now);
    var y1 := RemoteCommands.Run(y, a);
    var b := Accept(y1, cmd, now);
    QuietlyBoth(y, a, b);
    var y2 := RemoteCommands.Run(y, a + b);
    var c := CheckInVain(y2, cmd, session, now);
    QuietlyBoth(y, a + b, c);
    RemoteCommands.RunSound(y, a + b + c);
    var d := RivalTakesObservation(RemoteCommands.Run(y, a + b + c), cmd, rival, session, now);
    QuietlyBoth(y, a + b + c, d);
    es := a + b + c + d;
  }

  lemma AcceptRival(y: System, cmd: CommandId, session: SessionId, now: int)
    returns (rival: CommandId, es: seq<RemoteCommands.Timed>)
    requires cmd in y.commands && HasRival(y, cmd, session)
    ensures rival in y.commands && rival != cmd && Quietly(es) && OnlyMoved(y, RemoteCommands.Run(y, es), rival)
    ensures AwaitsStop(RemoteCommands.Run(y, es).commands[rival], session)
  {
    rival :| rival in y.commands && rival != cmd && StopFor(y.commands[rival], session) && Acceptable(y, rival);
    es := Accept(y, rival, now);
  }

  // ---------------------------------------------------------------- accepted too late

  /** How many steps can still lead to the stop's confirmation, each with what it leads to. */
  ghost function Owed(tasks: multiset<Task>, cmd: CommandId, session: SessionId): nat {
    3 * tasks[RegisterAccepted(cmd)] + 2 * tasks[CheckNow(cmd)] + tasks[Confirm(cmd, None)]
      + tasks[ObserveStop(session)]
  }

  /** A step that runs in vain while the stop is not accepted. */
  ghost function VainStep(y: System, cmd: CommandId, session: SessionId): Event {
    if RegisterAccepted(cmd) in y.tasks then Continue(RegisterAccepted(cmd), ANY_CHOICE)
    else if CheckNow(cmd) in y.tasks then Continue(CheckNow(cmd), ANY_CHOICE)
    else if Confirm(cmd, None) in y.tasks then Continue(Confirm(cmd, None), ANY_CHOICE)
    else if exists c :: c in y.commands && AwaitsStop(y.commands[c], session) then
      var c :| c in y.commands && AwaitsStop(y.commands[c], session);
      Continue(ObserveStop(session), Observing(c))
    else Continue(ObserveStop(session), ANY_CHOICE)
  }

  /** What is being shown of a vain step. */
  ghost predicate InVain(y: System, y': System, cmd: CommandId, session: SessionId) {
    && y'.tables == y.tables && y'.commands == y.commands && Owed(y'.tasks, cmd, session) < Owed(y.tasks, cmd, session)
    && (cmd in y.commands && Acceptable(y, cmd) ==> Acceptable(y', cmd))
  }

  /** The task that ran has left and at most one other was queued. */
  lemma PerformedTasks(y: System, task: Task, choice: Choice, now: int, y': System)
    requires task.RegisterAccepted? || task.Confirm? || task.ObserveStop?
    requires task in y.tasks && y' == Perform(Without(y, task), task, choice, now)
    ensures y'.tables == y.tables
    ensures var others := y.tasks - multiset{task};
      && (task.RegisterAccepted? ==> y'.tasks == others + multiset{CheckNow(task.cmd)})
      && (task.Confirm? ==> y'.tasks == others)
      && (task.ObserveStop? && choice.command.None? ==> y'.tasks == others)
      && (task.ObserveStop? && choice.command.Some? ==>
        y'.tasks == others + multiset{Confirm(choice.command.value, None)})
  {
  }

  lemma CheckedTasks(y: System, cmd: CommandId, session: SessionId, now: int, y': System)
    requires CheckNow(cmd) in y.tasks && cmd in y.commands && StopFor(y.commands[cmd], session)
    requires CompletedIn(y.tables, session)
    requires y' == Perform(Without(y, CheckNow(cmd)), CheckNow(cmd), ANY_CHOICE, now)
    ensures y'.tables == y.tables && y'.commands == y.commands
    ensures y'.tasks == y.tasks - multiset{CheckNow(cmd)} + multiset{Confirm(cmd, None)}
  {
  }

  /** Tasks already queued stay, and no command moved: the stop can be accepted as before. */
  lemma StillAcceptable(y: System, task: Task, choice: Choice, now: int, cmd: CommandId, y': System)
    requires task in y.tasks && y' == Perform(Without(y, task), task, choice, now)
    requires !task.Dispatch? && !task.AwaitAnswer? && !task.Settle? && y'.commands == y.commands
    ensures cmd in y.commands && Acceptable(y, cmd) ==> Acceptable(y', cmd)
  {
    OthersWait(y, task, choice, now, y');
  }

  lemma RegisterInVain(y: System, cmd: CommandId, session: SessionId, now: int, y': System)
    requires RegisterAccepted(cmd) in y.tasks
    requires y' == RemoteCommands.Step(y, Continue(RegisterAccepted(cmd), ANY_CHOICE), now)
    ensures InVain(y, y', cmd, session)
  {
    PerformedTasks(y, RegisterAccepted(cmd), ANY_CHOICE, now, y');
    StillAcceptable(y, RegisterAccepted(cmd), ANY_CHOICE, now, cmd, y');
  }

  lemma CheckedCompleted(y: System, cmd: CommandId, session: SessionId, now: int, y': System)
    requires CheckNow(cmd) in y.tasks && cmd in y.commands && StopFor(y.commands[cmd], session)
    requires CompletedIn(y.tables, session)
    requires y' == RemoteCommands.Step(y, Continue(CheckNow(cmd), ANY_CHOICE), now)
    ensures InVain(y, y', cmd, session)
  {
    CheckedTasks(y, cmd, session, now, y');
    StillAcceptable(y, CheckNow(cmd), ANY_CHOICE, now, cmd, y');
  }

  lemma ConfirmInVain(y: System, cmd: CommandId, session: SessionId, now: int, y': System)
    requires Confirm(cmd, None) in y.tasks && cmd in y.commands && y.commands[cmd].state != Accepted
    requires y' == RemoteCommands.Step(y, Continue(Confirm(cmd, None), ANY_CHOICE), now)
    ensures InVain(y, y', cmd, session)
  {
    PerformedTasks(y, Confirm(cmd, None), ANY_CHOICE, now, y');
    assert y'.commands == y.commands;
    StillAcceptable(y, Confirm(cmd, None), ANY_CHOICE, now, cmd, y');
  }

  lemma ObservedInVain(y: System, cmd: CommandId, session: SessionId, choice: Choice, now: int, y': System)
    requires ObserveStop(session) in y.tasks && ValidChoice(y, ObserveStop(session), choice)
    requires cmd in y.commands && y.commands[cmd].state != Accepted
    requires y' == RemoteCommands.Step(y, Continue(ObserveStop(session), choice), now)
    ensures InVain(y, y', cmd, session)
  {
    PerformedTasks(y, ObserveStop(session), choice, now, y');
    StillAcceptable(y, ObserveStop(session), choice, now, cmd, y');
    assert choice.command != Some(cmd);
  }

  lemma VainStepIsVain(y: System, cmd: CommandId, session: SessionId, now: int)
    requires cmd in y.commands && StopFor(y.commands[cmd], session) && y.commands[cmd].state != Accepted
    requires CompletedIn(y.tables, session) && WillConfirm(y, cmd, session)
    ensures InVain(y, RemoteCommands.Step(y, VainStep(y, cmd, session), now), cmd, session)
  {
    var e := VainStep(y, cmd, session);
    var y' := RemoteCommands.Step(y, e, now);
    match e.task
    case RegisterAccepted(_) => RegisterInVain(y, cmd, session, now, y');
    case CheckNow(_) => CheckedCompleted(y, cmd, session, now, y');
    case Confirm(_, _) => ConfirmInVain(y, cmd, session, now, y');
    case ObserveStop(_) => ObservedInVain(y, cmd, session, e.choice, now, y');
  }

  /** Whatever would confirm the stop can all run before the stop is accepted. */
  lemma {:induction false} AllInVain(y: System, cmd: CommandId, session: SessionId, now: int)
    returns (es: seq<RemoteCommands.Timed>)
    requires cmd in y.commands && StopFor(y.commands[cmd], session) && y.commands[cmd].state != Accepted
    requires CompletedIn(y.tables, session) && Acceptable(y, cmd)
    ensures var z := RemoteCommands.Run(y, es);
      && Quietly(es) && z.tables == y.tables && z.commands == y.commands && Acceptable(z, cmd)
      && !WillConfirm(z, cmd, session)
    decreases Owed(y.tasks, cmd, session)
  {
    es := [];
    if WillConfirm(y, cmd, session) {
      var e := VainStep(y, cmd, session);
      VainStepIsVain(y, cmd, session, now);
      var first := QuietlyThen(y, [], e, now);
      var rest := AllInVain(RemoteCommands.Step(y, e, now), cmd, session, now);
      QuietlyBoth(y, first, rest);
      es := first + rest;
    }
  }

  /** A stop that nobody registers is accepted after everything that would have confirmed it. */
  lemma MissByLateness(y: System, cmd: CommandId, session: SessionId, now: int) returns (es: seq<RemoteCommands.Timed>)
    requires cmd in y.commands && StopFor(y.commands[cmd], session) && Unregistered(y.commands[cmd])
    requires CompletedIn(y.tables, session) && Acceptable(y, cmd)
    ensures Quietly(es) && Missed(RemoteCommands.Run(y, es), cmd, session)
  {
    var a := AllInVain(y, cmd, session, now);
    var y1 := RemoteCommands.Run(y, a);
    var b := Accept(y1, cmd, now);
    QuietlyBoth(y, a, b);
    assert OnlyAnswers(y1, RemoteCommands.Run(y1, b), cmd);
    es := a + b;
  }

  lemma StopThenMiss(y: System, cmd: CommandId, session: SessionId, now: int) returns (es: seq<RemoteCommands.Timed>)
    requires RemoteCommands.Sound(y) && cmd in y.commands && StopFor(y.commands[cmd], session)
    requires Unregistered(y.commands[cmd]) && Acceptable(y, cmd)
    requires session in y.tables.sessions && !Terminal(y.tables.sessions[session].status)
    ensures Quietly(es) && Missed(RemoteCommands.Run(y, es), cmd, session)
  {
    var stop := StopTransaction(session, 0, NormalCompletion, now);
    StopIt(y, session, now);
    var first := QuietlyThen(y, [], stop, now);
    var rest := MissByLateness(RemoteCommands.Step(y, stop, now), cmd, session, now);
    QuietlyBoth(y, first, rest);
    es := first + rest;
  }

  // ---------------------------------------------------------------- exactly when

  /** Exactly when a stop can be missed. In any sound state with its session not ended, something
      that can follow without a further request misses it if and only if it can still be accepted,
      and either another stop for the same session can be too, or it is not accepted yet and
      nobody will register it. */
  lemma {:induction false} MissableIff(y: System, cmd: CommandId, session: SessionId)
    requires RemoteCommands.Sound(y) && cmd in y.commands && StopFor(y.commands[cmd], session)
    requires session in y.tables.sessions && !Terminal(y.tables.sessions[session].status)
    ensures CanBeMissed(y, cmd, session) <==>
              Acceptable(y, cmd) && (HasRival(y, cmd, session) || Unregistered(y.commands[cmd]))
  {
    if Acceptable(y, cmd) && HasRival(y, cmd, session) {
      var es := MissByRival(y, cmd, session, 0);
    } else if Acceptable(y, cmd) && Unregistered(y.commands[cmd]) {
      var es := StopThenMiss(y, cmd, session, 0);
    } else {
      forall es | Quietly(es) ensures !Missed(RemoteCommands.Run(y, es), cmd, session) {
        NotMissed(y, es, cmd, session);
      }
    }
  }

  lemma NotMissed(y: System, es: seq<RemoteCommands.Timed>, cmd: CommandId, session: SessionId)
    requires RemoteCommands.Sound(y) && Quietly(es) && cmd in y.commands && StopFor(y.commands[cmd], session)
    requires StopCovered(y, cmd)
    requires !Acceptable(y, cmd) || (!HasRival(y, cmd, session) && !Unregistered(y.commands[cmd]))
    ensures !Missed(RemoteCommands.Run(y, es), cmd, session)
  {
    if Acceptable(y, cmd) {
      UnrivalledIsCovered(y, es, cmd, session);
    } else {
      UnacceptableNeverAccepted(y, es, cmd);
    }
  }

  // ---------------------------------------------------------------- once the session is completed

  /** While the stop is ACCEPTED, a step of its own that will confirm it is waiting. */
  ghost predicate OnItsWay(y: System, cmd: CommandId, session: SessionId) {
    && cmd in y.commands && StopFor(y.commands[cmd], session) && CompletedIn(y.tables, session)
    && !Unregistered(y.commands[cmd]) && (y.commands[cmd].state == Accepted ==> !NoOwnWay(y, cmd))
  }

  lemma OwnTaskOnItsWay(y: System, task: Task, choice: Choice, now: int, cmd: CommandId, y': System)
    requires task in y.tasks && cmd in y.commands && y.commands[cmd].session.Some?
    requires !task.ObserveStart? && !task.ObserveStop? && task.cmd == cmd
    requires OnItsWay(y, cmd, y.commands[cmd].session.value)
    requires y' == Perform(Without(y, task), task, choice, now) && cmd in y'.commands
    ensures y'.commands[cmd].state == Accepted ==> !NoOwnWay(y', cmd)
  {
    if y'.commands[cmd].state == Accepted {
      OthersWait(y, task, choice, now, y');
      if task.Settle? {
        SettledOrSame(y, task, choice, now, y');
      } else if task.RegisterAccepted? {
        assert CheckNow(cmd) in y'.tasks;
      } else if task.CheckNow? {
        assert Confirm(cmd, None) in y'.tasks;
      } else {
        QuietRow(Without(y, task), task, choice, now);
      }
    }
  }

  lemma TaskOnItsWay(y: System, task: Task, choice: Choice, now: int, cmd: CommandId, y': System)
    requires task in y.tasks && cmd in y.commands && y.commands[cmd].session.Some?
    requires OnItsWay(y, cmd, y.commands[cmd].session.value)
    requires y' == Perform(Without(y, task), task, choice, now) && cmd in y'.commands
    ensures y'.commands[cmd].state == Accepted ==> !NoOwnWay(y', cmd)
  {
    if task.ObserveStart? || task.ObserveStop? || task.cmd != cmd {
      ElsewhereUntouched(y, task, choice, now, cmd);
      OthersWait(y, task, choice, now, y');
    } else {
      OwnTaskOnItsWay(y, task, choice, now, cmd, y');
    }
  }

  lemma StepOnItsWay(y: System, e: Event, now: int, cmd: CommandId, session: SessionId)
    requires RemoteCommands.Sound(y) && OnItsWay(y, cmd, session) && !e.ProcessRestart? && !e.Ask?
    ensures OnItsWay(RemoteCommands.Step(y, e, now), cmd, session)
  {
    var y' := RemoteCommands.Step(y, e, now);
    StepMoves(y, e, now, cmd);
    TablesGrow(y, e, now);
    assert KeepsRow(y.tables, y'.tables, session);
    if RemoteCommands.Enabled(y, e) {
      if e.Continue? {
        TaskOnItsWay(y, e.task, e.choice, now, cmd, y');
      } else if !e.TimerFires? {
        MessageKeeps(y, e, now);
      }
    }
  }

  lemma {:induction false} RunOnItsWay(y: System, es: seq<RemoteCommands.Timed>, cmd: CommandId, session: SessionId)
    requires RemoteCommands.Sound(y) && Quietly(es) && OnItsWay(y, cmd, session)
    ensures OnItsWay(RemoteCommands.Run(y, es), cmd, session)
    decreases |es|
  {
    if es != [] {
      var init, last := es[..|es| - 1], es[|es| - 1];
      RunOnItsWay(y, init, cmd, session);
      RemoteCommands.RunSound(y, init);
      StepOnItsWay(RemoteCommands.Run(y, init), last.e, last.now, cmd, session);
    }
  }

  /** Only observations of its session, if anything, are waiting to confirm the accepted stop, and
      if there are any a rival can take them. */
  ghost predicate CanBeOutrun(y: System, cmd: CommandId, session: SessionId) {
    NoOwnWay(y, cmd) && (ObserveStop(session) in y.tasks ==> HasRival(y, cmd, session))
  }

  lemma MissOutrun(y: System, cmd: CommandId, session: SessionId, now: int) returns (es: seq<RemoteCommands.Timed>)
    requires RemoteCommands.Sound(y) && cmd in y.commands && StopFor(y.commands[cmd], session)
    requires CompletedIn(y.tables, session) && y.commands[cmd].state == Accepted && CanBeOutrun(y, cmd, session)
    ensures Quietly(es) && Missed(RemoteCommands.Run(y, es), cmd, session)
  {
    es := [];
    if ObserveStop(session) in y.tasks {
      var rival, a := AcceptRival(y, cmd, session, now);
      assert OnlyAnswers(y, RemoteCommands.Run(y, a), rival);
      var b := RivalTakesAll(RemoteCommands.Run(y, a), cmd, rival, session, now);
      QuietlyBoth(y, a, b);
      es := a + b;
    }
  }

  lemma NotOutrun(y: System, es: seq<RemoteCommands.Timed>, cmd: CommandId, session: SessionId)
    requires RemoteCommands.Sound(y) && Quietly(es) && cmd in y.commands && StopFor(y.commands[cmd], session)
    requires CompletedIn(y.tables, session) && y.commands[cmd].state == Accepted && !CanBeOutrun(y, cmd, session)
    ensures !Missed(RemoteCommands.Run(y, es), cmd, session)
  {
    if NoOwnWay(y, cmd) {
      UnrivalledIsCovered(y, es, cmd, session);
    } else {
      RunOnItsWay(y, es, cmd, session);
    }
  }

  lemma NotLate(y: System, es: seq<RemoteCommands.Timed>, cmd: CommandId, session: SessionId)
    requires RemoteCommands.Sound(y) && Quietly(es) && cmd in y.commands && StopFor(y.commands[cmd], session)
    requires CompletedIn(y.tables, session) && y.commands[cmd].state != Accepted
    requires !Acceptable(y, cmd) || !Unregistered(y.commands[cmd])
    ensures !Missed(RemoteCommands.Run(y, es), cmd, session)
  {
    if Acceptable(y, cmd) {
      RunOnItsWay(y, es, cmd, session);
    } else {
      UnacceptableNeverAccepted(y, es, cmd);
    }
  }

  /** The same once the session is COMPLETED. A stop already ACCEPTED is missed in some continuation
      exactly when nothing of its own is waiting and no observation is, or a rival can take those
      that are; any other exactly when it can still be accepted and nobody will register it. */
  lemma {:induction false} MissableCompletedIff(y: System, cmd: CommandId, session: SessionId)
    requires RemoteCommands.Sound(y) && cmd in y.commands && StopFor(y.commands[cmd], session)
    requires CompletedIn(y.tables, session)
    ensures CanBeMissed(y, cmd, session) <==>
              if y.commands[cmd].state == Accepted then CanBeOutrun(y, cmd, session)
              else Acceptable(y, cmd) && Unregistered(y.commands[cmd])
  {
    if y.commands[cmd].state == Accepted {
      if CanBeOutrun(y, cmd, session) {
        var es := MissOutrun(y, cmd, session, 0);
      } else {
        forall es | Quietly(es) ensures !Missed(RemoteCommands.Run(y, es), cmd, session) {
          NotOutrun(y, es, cmd, session);
        }
      }
    } else if Acceptable(y, cmd) && Unregistered(y.commands[cmd]) {
      var es := MissByLateness(y, cmd, session, 0);
    } else {
      forall es | Quietly(es) ensures !Missed(RemoteCommands.Run(y, es), cmd, session) {
        NotLate(y, es, cmd, session);
      }
    }
  }

  /** And of a session that ended otherwise no stop is ever missed, since it is never completed. */
  lemma {:induction false} EndedOtherwiseNotMissed(y: System, es: seq<RemoteCommands.Timed>, cmd: CommandId,
                                                   session: SessionId)
    requires RemoteCommands.Sound(y) && EndedIn(y.tables, session) && !CompletedIn(y.tables, session)
    ensures !Missed(RemoteCommands.Run(y, es), cmd, session) && EndedIn(RemoteCommands.Run(y, es).tables, session)
    ensures RemoteCommands.Run(y, es).tables.sessions[session] == y.tables.sessions[session]
    decreases |es|
  {
    if es != [] {
      var init, last := es[..|es| - 1], es[|es| - 1];
      EndedOtherwiseNotMissed(y, init, cmd, session);
      RemoteCommands.RunSound(y, init);
      TablesGrow(RemoteCommands.Run(y, init), last.e, last.now);
      assert KeepsRow(RemoteCommands.Run(y, init).tables, RemoteCommands.Run(y, es).tables, session);
    }
  }

  // ---------------------------------------------------------------- two stops for one session

  function StopRequest(station: StationId, connector: Option<ConnectorId>, session: SessionId): Request {
    Request(station, connector, Some(session), StopCommand, None, false, true)
  }

  /** A second stop for the session gets past the guard exactly when it would have by itself and
      the two sit on different connectors. */
  lemma SecondStopAdmittedIff(y: System, r: Request, second: Request, now: int, later: int)
    requires RemoteCommands.Sound(y) && r.kind.StopCommand? && second.kind.StopCommand? && r.session == second.session
    requires RefusalOf(y, r, now) == None
    ensures RefusalOf(RemoteCommands.Step(y, Ask(r), now), second, later) == None <==>
      RefusalOf(y, second, later) == None
        && Asked(y.tables, r, now).connector != Asked(y.tables, second, later).connector
  {
    var y' := RemoteCommands.Step(y, Ask(r), now);
    AdmittedIff(y, r, now);
    AdmittedIff(y, second, later);
    AdmittedIff(y', second, later);
    AdmissibleBeside(y, r, second, now, later);
  }

  /** A request admitted first leaves a later stop admissible exactly when the two do not clash. */
  lemma AdmissibleBeside(y: System, r: Request, second: Request, now: int, later: int)
    requires RemoteCommands.Sound(y) && RefusalOf(y, r, now) == None && second.kind.StopCommand?
    ensures RemoteCommands.Admissible(RemoteCommands.Step(y, Ask(r), now), second, later) <==>
      RemoteCommands.Admissible(y, second, later) && !Clash(Asked(y.tables, r, now), Asked(y.tables, second, later))
  {
    var y' := RemoteCommands.Step(y, Ask(r), now);
    var a, b := Asked(y.tables, r, now), Asked(y.tables, second, later);
    assert y'.commands == y.commands[y.next := a] && y'.tables == y.tables && y.next !in y.commands;
    assert !Resolved(y'.commands[y.next].state);
    forall i | i in y.commands ensures y'.commands[i] == y.commands[i] {
    }
  }

  /** Two stops for an unfinished session can both still be accepted. */
  ghost predicate TwoStops(y: System, a: CommandId, b: CommandId, session: SessionId) {
    && a != b && a in y.commands && StopFor(y.commands[a], session) && Acceptable(y, a)
    && b in y.commands && StopFor(y.commands[b], session) && Acceptable(y, b)
    && session in y.tables.sessions && !Terminal(y.tables.sessions[session].status)
  }

  lemma EitherIsMissable(y: System, a: CommandId, b: CommandId, session: SessionId)
    requires RemoteCommands.Sound(y) && TwoStops(y, a, b, session)
    ensures CanBeMissed(y, a, session) && CanBeMissed(y, b, session)
  {
    assert HasRival(y, a, session) && HasRival(y, b, session);
    MissableIff(y, a, session);
    MissableIff(y, b, session);
  }

  /** A stop for the session was asked for under the id cmd, and nothing else changed. */
  ghost predicate StopAdded(y: System, y': System, cmd: CommandId, session: SessionId) {
    && RemoteCommands.Sound(y') && y'.tables == y.tables && cmd !in y.commands
    && session in y.tables.sessions && !Terminal(y.tables.sessions[session].status)
    && cmd in y'.commands && StopFor(y'.commands[cmd], session) && Acceptable(y', cmd)
    && (forall i :: i in y.commands ==> i in y'.commands && y'.commands[i] == y.commands[i])
    && forall i :: i in y.commands && Acceptable(y, i) ==> Acceptable(y', i)
  }

  lemma AskedStop(y: System, r: Request, now: int)
    requires RemoteCommands.Sound(y) && r.kind.StopCommand? && RefusalOf(y, r, now) == None
    ensures var y' := RemoteCommands.Step(y, Ask(r), now);
      && RemoteCommands.Sound(y') && r.session.Some? && y'.next == y.next + 1
      && StopAdded(y, y', y.next, r.session.value)
  {
    AdmittedIff(y, r, now);
    StepSound(y, Ask(r), now);
    AskKeepsAcceptable(y, r, now);
  }

  lemma AskKeepsAcceptable(y: System, r: Request, now: int)
    requires RemoteCommands.Sound(y) && RefusalOf(y, r, now) == None
    ensures var y' := RemoteCommands.Step(y, Ask(r), now);
      && y.next !in y.commands && y'.commands == y.commands[y.next := Asked(y.tables, r, now)]
        && Dispatch(y.next) in y'.tasks
      && forall i :: i in y.commands && Acceptable(y, i) ==> Acceptable(y', i)
  {
  }

  lemma BothAdded(y: System, y1: System, y2: System, a: CommandId, b: CommandId, session: SessionId)
    requires StopAdded(y, y1, a, session) && StopAdded(y1, y2, b, session)
    ensures CanBeMissed(y2, a, session) && CanBeMissed(y2, b, session)
  {
    EitherIsMissable(y2, a, b, session);
  }

  /** Whenever two stops for one session have been admitted, which takes one naming a connector that
      is not the session's, each of them can be missed. */
  lemma {:induction false} TwoAdmittedStopsMissEither(y: System, r: Request, second: Request, now: int, later: int)
    requires RemoteCommands.Sound(y) && r.kind.StopCommand? && second.kind.StopCommand? && r.session == second.session
    requires RefusalOf(y, r, now) == None
    requires RefusalOf(RemoteCommands.Step(y, Ask(r), now), second, later) == None
    ensures var y2 := RemoteCommands.Step(RemoteCommands.Step(y, Ask(r), now), Ask(second), later);
      r.session.Some? && CanBeMissed(y2, y.next, r.session.value) && CanBeMissed(y2, y.next + 1, r.session.value)
  {
    AskedStop(y, r, now);
    var y1 := RemoteCommands.Step(y, Ask(r), now);
    AskedStop(y1, second, later);
    BothAdded(y, y1, RemoteCommands.Step(y1, Ask(second), later), y.next, y.next + 1, r.session.value);
  }

  // ---------------------------------------------------------------- a reachable instance

  ghost predicate Reachable(y: System) {
    exists es :: RemoteCommands.Run(INITIALLY, es) == y
  }

  lemma ReachStep(y: System, e: Event, now: int, y': System)
    requires Reachable(y) && y' == RemoteCommands.Step(y, e, now)
    ensures Reachable(y')
  {
    var es :| RemoteCommands.Run(INITIALLY, es) == y;
    RunThen(INITIALLY, es, e, now);
  }

  lemma ReachTask(y: System, task: Task, choice: Choice, now: int, y': System)
    requires Reachable(y) && y.tasks == multiset{task} && ValidChoice(y, task, choice)
    requires y' == Perform(y.(tasks := multiset{}), task, choice, now)
    ensures Reachable(y')
  {
    assert Without(y, task) == y.(tasks := multiset{});
    ReachStep(y, Continue(task, choice), now, y');
  }

  ghost function WithRow(y: System, cmd: CommandId, state: State, tasks: multiset<Task>): System
    requires cmd in y.commands
  {
    y.(commands := y.commands[cmd := y.commands[cmd].(state := state)], tasks := tasks)
  }

  /** A stop accepted while its session is still running: dispatched, answered, registered,
      checked, and now only its timer is left. */
  lemma AcceptedAndWaiting(y: System, cmd: CommandId, now: int)
    requires Reachable(y) && cmd in y.commands && y.commands[cmd].state == Requested
    requires y.commands[cmd].kind.StopCommand?
    requires y.commands[cmd].session.Some? && !CompletedIn(y.tables, y.commands[cmd].session.value)
    requires y.tasks == multiset{Dispatch(cmd)} && y.commands[cmd].watched
    ensures Reachable(WithRow(y, cmd, Accepted, multiset{}).(timers := y.timers + {cmd}))
  {
    var sent := WithRow(y, cmd, Sent, multiset{Settle(cmd, ChargerAccepts)});
    AnswerArrives(y, cmd, now, sent);
    var accepted := WithRow(y, cmd, Accepted, multiset{RegisterAccepted(cmd)});
    ReachTask(sent, Settle(cmd, ChargerAccepts), ANY_CHOICE, now, accepted);
    CheckedInVain(accepted, cmd, now);
  }

  lemma AnswerArrives(y: System, cmd: CommandId, now: int, sent: System)
    requires Reachable(y) && cmd in y.commands && y.commands[cmd].state == Requested
    requires y.tasks == multiset{Dispatch(cmd)}
    requires sent == WithRow(y, cmd, Sent, multiset{Settle(cmd, ChargerAccepts)})
    ensures Reachable(sent)
  {
    var waiting := y.(tasks := multiset{AwaitAnswer(cmd)});
    ReachTask(y, Dispatch(cmd), ANY_CHOICE, now, waiting);
    ReachTask(waiting, AwaitAnswer(cmd), ANY_CHOICE.(outcome := ChargerAccepts), now, sent);
  }

  lemma CheckedInVain(y: System, cmd: CommandId, now: int)
    requires Reachable(y) && cmd in y.commands && y.commands[cmd].kind.StopCommand? && y.commands[cmd].session.Some?
    requires !CompletedIn(y.tables, y.commands[cmd].session.value) && y.tasks == multiset{RegisterAccepted(cmd)}
    ensures Reachable(y.(timers := y.timers + {cmd}, tasks := multiset{}))
  {
    var registered := y.(timers := y.timers + {cmd}, tasks := multiset{CheckNow(cmd)});
    ReachTask(y, RegisterAccepted(cmd), ANY_CHOICE, now, registered);
    ReachTask(registered, CheckNow(cmd), ANY_CHOICE, now, registered.(tasks := multiset{}));
  }

  /** A charge running on connector 7 of station 1. */
  ghost function Charging(): Tables {
    Apply(NO_SESSIONS, Create(CreateInput(1, 7, 0, 0)), 0)
  }

  lemma ChargingIs()
    ensures Charging().sessions == map[0 := NewSession(CreateInput(1, 7, 0, 0), 0)]
  {
  }

  function StopOf(connector: ConnectorId, state: State): Command {
    Command(1, Some(connector), Some(0), StopCommand, state, 1, None, true)
  }

  lemma ChargeStarted()
    ensures Reachable(System(Charging(), map[], 0, {}, multiset{}))
  {
    assert RemoteCommands.Run(INITIALLY, []) == INITIALLY;
    var observed := System(Charging(), map[], 0, {}, multiset{ObserveStart(1, 7, 0)});
    ReachStep(INITIALLY, StartTransaction(CreateInput(1, 7, 0, 0)), 0, observed);
    ReachTask(observed, ObserveStart(1, 7, 0), ANY_CHOICE, 0, observed.(tasks := multiset{}));
  }

  lemma FirstAccepted()
    ensures Reachable(System(Charging(), map[0 := StopOf(8, Accepted)], 1, {0}, multiset{}))
  {
    ChargeStarted();
    ChargingIs();
    var y := System(Charging(), map[], 0, {}, multiset{});
    assert Asked(y.tables, StopRequest(1, Some(8), 0), 1) == StopOf(8, Requested);
    assert RefusalOf(y, StopRequest(1, Some(8), 0), 1) == None;
    var asked := System(Charging(), map[0 := StopOf(8, Requested)], 1, {}, multiset{Dispatch(0)});
    ReachStep(y, Ask(StopRequest(1, Some(8), 0)), 1, asked);
    AcceptedAndWaiting(asked, 0, 1);
    assert asked.commands[0 := StopOf(8, Accepted)] == map[0 := StopOf(8, Accepted)];
  }

  lemma BothAccepted()
    ensures Reachable(System(Charging(), map[0 := StopOf(8, Accepted), 1 := StopOf(7, Accepted)], 2, {0, 1},
      multiset{}))
  {
    FirstAccepted();
    ChargingIs();
    var y := System(Charging(), map[0 := StopOf(8, Accepted)], 1, {0}, multiset{});
    assert Asked(y.tables, StopRequest(1, None, 0), 1) == StopOf(7, Requested);
    assert RefusalOf(y, StopRequest(1, None, 0), 1) == None;
    var asked := System(Charging(), map[0 := StopOf(8, Accepted), 1 := StopOf(7, Requested)], 2, {0},
      multiset{Dispatch(1)});
    ReachStep(y, Ask(StopRequest(1, None, 0)), 1, asked);
    AcceptedAndWaiting(asked, 1, 1);
    assert asked.commands[1 := StopOf(7, Accepted)] == map[0 := StopOf(8, Accepted), 1 := StopOf(7, Accepted)];
  }

  /** A charge asked to stop twice, once naming another connector than its own and once through
      the route, then stopped: the unrouted command takes the observation. The routed one is
      ACCEPTED, its session is COMPLETED, and nothing but its timer is left, so it will end
      UNCONFIRMED. */
  lemma UnroutedStopIsMissed()
    ensures exists y ::
      Reachable(y) && y.commands ==
        map[0 := StopOf(8, Accepted).(state := Confirmed, resolvedAt := Some(2)), 1 := StopOf(7, Accepted)]
      && CompletedIn(y.tables, 0) && y.tasks == multiset{} && y.timers == {1} && !WillConfirm(y, 1, 0)
  {
    BothAccepted();
    ChargingIs();
    var both := map[0 := StopOf(8, Accepted), 1 := StopOf(7, Accepted)];
    var y := System(Charging(), both, 2, {0, 1}, multiset{});
    var stop := Stop(0, 10, NormalCompletion, 2);
    var stopped := System(Apply(Charging(), stop, 2), both, 2, {0, 1}, multiset{ObserveStop(0)});
    ReachStep(y, StopTransaction(0, 10, NormalCompletion, 2), 2, stopped);
    ObservationTaken(stopped, 2);
  }

  lemma ObservationTaken(y: System, now: int)
    requires Reachable(y) && y.commands == map[0 := StopOf(8, Accepted), 1 := StopOf(7, Accepted)]
    requires CompletedIn(y.tables, 0) && y.tasks == multiset{ObserveStop(0)} && y.timers == {0, 1}
    ensures var z := y.(commands := y.commands[0 := StopOf(8, Accepted).(state := Confirmed, resolvedAt := Some(now))],
                        tasks := multiset{}, timers := {1});
      Reachable(z) && !WillConfirm(z, 1, 0)
  {
    var chosen := y.(tasks := multiset{Confirm(0, None)});
    ReachTask(y, ObserveStop(0), ANY_CHOICE.(command := Some(0)), now, chosen);
    var z := y.(commands := y.commands[0 := StopOf(8, Accepted).(state := Confirmed, resolvedAt := Some(now))],
                tasks := multiset{}, timers := {1});
    assert {0, 1} - {0} == {1};
    ReachTask(chosen, Confirm(0, None), ANY_CHOICE, now, z);
  }
}
