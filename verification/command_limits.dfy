/** How a command comes to its end: within a process life its own waiting steps bring it there,
    whatever the charger answers and whatever else happens; a restart may strand it for good. */
module CommandLimits {
  import opened Common
  import opened Sessions
  import opened RemoteCommands
  import opened CommandOutcomes

  // ---------------------------------------------------------------- every command comes to an end

  /** The longest way a command still has to go by itself. */
  ghost function Distance(y: System, cmd: CommandId): nat
    requires cmd in y.commands
  {
    match y.commands[cmd].state
    case Requested => if AwaitAnswer(cmd) in y.tasks then 5 else 6
    case Sent => 4
    case Accepted => if Expire(cmd) in y.tasks then 1 else if cmd in y.timers then 2 else 3
    case _ => 0
  }

  /** A step that is waiting on the command's behalf; choice is what it will find out: whether the
      station can be reached, and what the charger answers. */
  ghost function WaitingStep(y: System, cmd: CommandId, choice: Choice): Event
    requires cmd in y.commands
  {
    match y.commands[cmd].state
    case Requested => Continue(if AwaitAnswer(cmd) in y.tasks then AwaitAnswer(cmd) else Dispatch(cmd), choice)
    case Sent =>
      Continue(Settle(cmd, if Settle(cmd, ChargerAccepts) in y.tasks then ChargerAccepts
                           else if Settle(cmd, ChargerRejects) in y.tasks then ChargerRejects else NoAnswer), choice)
    case _ =>
      if Expire(cmd) in y.tasks then Continue(Expire(cmd), choice)
      else if cmd in y.timers then TimerFires(cmd)
      else Continue(RegisterAccepted(cmd), choice)
  }

  /** In one process life an unresolved command always has a step waiting, and running that step,
      whatever it finds out, brings it strictly closer to its end. */
  lemma {:induction false} NeverStuck(y: System, cmd: CommandId, choice: Choice, now: int)
    requires cmd in y.commands && Followed(y, cmd) && !Resolved(y.commands[cmd].state)
    ensures var e := WaitingStep(y, cmd, choice);
      var y' := RemoteCommands.Step(y, e, now);
      && RemoteCommands.Enabled(y, e) && !e.ProcessRestart?
      && cmd in y'.commands && (Due(y'.commands[cmd]) ==> Followed(y', cmd)) && Distance(y', cmd) < Distance(y, cmd)
  {
    var e := WaitingStep(y, cmd, choice);
    var y' := RemoteCommands.Step(y, e, now);
    match e
    case Continue(task, _) =>
      assert task in y.tasks && task.cmd == cmd;
      PerformMoves(Without(y, task), task, choice, now, cmd);
      PerformFollowed(y, task, choice, now, cmd, y');
      if task.Settle? {
        CloserFromSent(y, cmd, task.outcome, choice, now);
      } else if y.commands[cmd].state == Requested {
        CloserToAnswer(y, cmd, choice, now);
      } else {
        CloserFromAccepted(y, cmd, choice, now);
      }
    case TimerFires(_) =>
      assert Expire(cmd) in y'.tasks;
  }

  lemma CloserToAnswer(y: System, cmd: CommandId, choice: Choice, now: int)
    requires cmd in y.commands && y.commands[cmd].state == Requested && Followed(y, cmd)
    ensures var task := WaitingStep(y, cmd, choice).task;
      var y' := Perform(Without(y, task), task, choice, now);
      cmd in y'.commands && Distance(y', cmd) < Distance(y, cmd)
  {
    if AwaitAnswer(cmd) in y.tasks {
      assert Perform(Without(y, AwaitAnswer(cmd)), AwaitAnswer(cmd), choice, now).commands[cmd].state == Sent;
    } else if choice.sendable {
      assert AwaitAnswer(cmd) in Perform(Without(y, Dispatch(cmd)), Dispatch(cmd), choice, now).tasks;
    } else {
      assert Resolved(Perform(Without(y, Dispatch(cmd)), Dispatch(cmd), choice, now).commands[cmd].state);
    }
  }

  lemma CloserFromSent(y: System, cmd: CommandId, outcome: Outcome, choice: Choice, now: int)
    requires cmd in y.commands && y.commands[cmd].state == Sent
    ensures var y' := Perform(Without(y, Settle(cmd, outcome)), Settle(cmd, outcome), choice, now);
      cmd in y'.commands && Distance(y', cmd) < Distance(y, cmd)
  {
    var y' := Perform(Without(y, Settle(cmd, outcome)), Settle(cmd, outcome), choice, now);
    assert y'.commands[cmd].state == Accepted || Resolved(y'.commands[cmd].state);
  }

  lemma CloserFromAccepted(y: System, cmd: CommandId, choice: Choice, now: int)
    requires cmd in y.commands && y.commands[cmd].state == Accepted && Followed(y, cmd)
    requires WaitingStep(y, cmd, choice).Continue?
    ensures var task := WaitingStep(y, cmd, choice).task;
      var y' := Perform(Without(y, task), task, choice, now);
      cmd in y'.commands && Distance(y', cmd) < Distance(y, cmd)
  {
    if Expire(cmd) in y.tasks {
      assert Resolved(Perform(Without(y, Expire(cmd)), Expire(cmd), choice, now).commands[cmd].state);
    } else {
      assert cmd in Perform(Without(y, RegisterAccepted(cmd)), RegisterAccepted(cmd), choice, now).timers;
    }
  }

  // ---------------------------------------------------------------- and nothing takes it further away

  /** Where its row stays and nothing waiting for it has left, a command is no farther from its end. */
  lemma WaitingNoFarther(y: System, y': System, cmd: CommandId)
    requires cmd in y.commands && cmd in y'.commands && y'.commands[cmd] == y.commands[cmd]
    requires AwaitAnswer(cmd) in y.tasks ==> AwaitAnswer(cmd) in y'.tasks
    requires Expire(cmd) in y.tasks ==> Expire(cmd) in y'.tasks
    requires cmd in y.timers ==> cmd in y'.timers || Expire(cmd) in y'.tasks
    ensures Distance(y', cmd) <= Distance(y, cmd)
  {
  }

  lemma TaskNoFarther(y: System, task: Task, choice: Choice, now: int, cmd: CommandId, y': System)
    requires task in y.tasks && cmd in y.commands && y' == Perform(Without(y, task), task, choice, now)
    requires task.ObserveStart? || task.ObserveStop? || task.cmd != cmd
    ensures cmd in y'.commands && Distance(y', cmd) <= Distance(y, cmd)
  {
    ElsewhereUntouched(y, task, choice, now, cmd);
    OthersWait(y, task, choice, now, y');
    WaitingNoFarther(y, y', cmd);
  }

  lemma MovedNoFarther(y: System, y': System, cmd: CommandId)
    requires cmd in y.commands && cmd in y'.commands && y'.commands[cmd].state in Allowed(y.commands[cmd].state)
    ensures Distance(y', cmd) <= Distance(y, cmd)
  {
  }

  lemma SameStateNoFarther(y: System, y': System, task: Task, cmd: CommandId)
    requires OthersWaiting(y, y', task)
    requires cmd in y.commands && cmd in y'.commands && y'.commands[cmd].state == y.commands[cmd].state
    requires y.commands[cmd].state == Requested ==> !task.AwaitAnswer?
    requires y.commands[cmd].state == Accepted ==> !task.Expire? && (cmd in y.timers ==> cmd in y'.timers)
    ensures Distance(y', cmd) <= Distance(y, cmd)
  {
  }

  lemma OwnTaskNoFarther(y: System, task: Task, choice: Choice, now: int, y': System)
    requires task in y.tasks && !task.ObserveStart? && !task.ObserveStop? && task.cmd in y.commands
    requires y' == Perform(Without(y, task), task, choice, now)
    ensures task.cmd in y'.commands && Distance(y', task.cmd) <= Distance(y, task.cmd)
  {
    PerformMoves(Without(y, task), task, choice, now, task.cmd);
    if y'.commands[task.cmd].state == y.commands[task.cmd].state {
      OthersWait(y, task, choice, now, y');
      OwnTaskSameState(y, task, choice, now, y');
      SameStateNoFarther(y, y', task, task.cmd);
    } else {
      MovedNoFarther(y, y', task.cmd);
    }
  }

  /** Where the command's state stays, its timer stays armed, and the task was not the next one. */
  lemma OwnTaskSameState(y: System, task: Task, choice: Choice, now: int, y': System)
    requires task in y.tasks && !task.ObserveStart? && !task.ObserveStop? && task.cmd in y.commands
    requires y' == Perform(Without(y, task), task, choice, now) && task.cmd in y'.commands
    requires y'.commands[task.cmd].state == y.commands[task.cmd].state
    ensures y.commands[task.cmd].state == Requested ==> !task.AwaitAnswer?
    ensures y.commands[task.cmd].state == Accepted ==> !task.Expire? && (task.cmd in y.timers ==> task.cmd in y'.timers)
  {
  }

  /** No event of the process life increases the distance. */
  lemma {:induction false} NoFarther(y: System, e: Event, now: int, cmd: CommandId)
    requires RemoteCommands.Sound(y) && !e.ProcessRestart? && cmd in y.commands
    ensures cmd in RemoteCommands.Step(y, e, now).commands
    ensures Distance(RemoteCommands.Step(y, e, now), cmd) <= Distance(y, cmd)
  {
    if !RemoteCommands.Enabled(y, e) { return; }
    var y' := RemoteCommands.Step(y, e, now);
    if e.Continue? {
      if e.task.ObserveStart? || e.task.ObserveStop? || e.task.cmd != cmd {
        TaskNoFarther(y, e.task, e.choice, now, cmd, y');
      } else {
        OwnTaskNoFarther(y, e.task, e.choice, now, y');
      }
    } else {
      if e.Ask? { AskedBeside(y, e.request, now, cmd); }
      if e.TimerFires? { TimerKeeps(y, e.cmd, now); }
      if !e.Ask? && !e.TimerFires? { MessageKeeps(y, e, now); }
      WaitingNoFarther(y, y', cmd);
    }
  }

  lemma AskedBeside(y: System, r: Request, now: int, cmd: CommandId)
    requires RemoteCommands.Sound(y) && cmd in y.commands
    ensures var y' := RemoteCommands.Step(y, Ask(r), now);
      && cmd in y'.commands && y'.commands[cmd] == y.commands[cmd] && y'.timers == y.timers
      && forall task :: task in y.tasks ==> task in y'.tasks
  {
    assert cmd != y.next;
  }

  /** How many steps of the run were the command's own waiting step at that moment. */
  ghost function OwnSteps(y: System, life: seq<RemoteCommands.Timed>, cmd: CommandId): nat {
    if life == [] then 0
    else
      var z, e := RemoteCommands.Run(y, life[..|life| - 1]), life[|life| - 1].e;
      OwnSteps(y, life[..|life| - 1], cmd) + if OwnStep(z, e, cmd) then 1 else 0
  }

  ghost predicate OwnStep(z: System, e: Event, cmd: CommandId) {
    && cmd in z.commands && !Resolved(z.commands[cmd].state)
    && e == WaitingStep(z, cmd, if e.Continue? then e.choice else Choice(true, NoAnswer, None, None))
  }

  /** Every run that takes the command's own waiting steps resolves it, whatever those steps find
      out and whatever happens in between: six of them are enough, and each counts. */
  lemma {:induction false} OwnStepsResolve(y: System, life: seq<RemoteCommands.Timed>, cmd: CommandId)
    requires RemoteCommands.Sound(y) && OneLife(life) && cmd in y.commands && y.commands[cmd].watched
    requires Followed(y, cmd)
    ensures var z := RemoteCommands.Run(y, life);
      && cmd in z.commands && z.commands[cmd].watched && Followed(z, cmd)
      && OwnSteps(y, life, cmd) + Distance(z, cmd) <= Distance(y, cmd) <= 6
      && (OwnSteps(y, life, cmd) == Distance(y, cmd) ==> Resolved(z.commands[cmd].state))
    decreases |life|
  {
    if life != [] {
      var init, last := life[..|life| - 1], life[|life| - 1];
      OwnStepsResolve(y, init, cmd);
      RemoteCommands.RunSound(y, init);
      var z := RemoteCommands.Run(y, init);
      NoFarther(z, last.e, last.now, cmd);
      StepMoves(z, last.e, last.now, cmd);
      StepFollowed(z, last.e, last.now, cmd);
      if OwnStep(z, last.e, cmd) {
        NeverStuck(z, cmd, if last.e.Continue? then last.e.choice else Choice(true, NoAnswer, None, None), last.now);
      }
    }
  }

  /** The command's own steps one after the other, finding out what choices says. */
  ghost function Driven(y: System, cmd: CommandId, choices: nat -> Choice, n: nat, now: int): System
    requires RemoteCommands.Sound(y) && cmd in y.commands && y.commands[cmd].watched && Followed(y, cmd)
    ensures RemoteCommands.Sound(Driven(y, cmd, choices, n, now))
    ensures cmd in Driven(y, cmd, choices, n, now).commands && Driven(y, cmd, choices, n, now).commands[cmd].watched
    ensures Followed(Driven(y, cmd, choices, n, now), cmd)
    ensures Distance(Driven(y, cmd, choices, n, now), cmd) <= if n <= 6 then 6 - n else 0
  {
    if n == 0 then y
    else
      var z := Driven(y, cmd, choices, n - 1, now);
      if Resolved(z.commands[cmd].state) then z
      else
        NeverStuck(z, cmd, choices(n - 1), now);
        StepSound(z, WaitingStep(z, cmd, choices(n - 1)), now);
        StepMoves(z, WaitingStep(z, cmd, choices(n - 1)), now, cmd);
        RemoteCommands.Step(z, WaitingStep(z, cmd, choices(n - 1)), now)
  }

  /** From every state of a process life, and for every behaviour of the charger, six steps of its
      own resolve a command requested in that life by a requester that registers. */
  lemma {:induction false} EveryCommandCanFinish(y: System, life: seq<RemoteCommands.Timed>, cmd: CommandId,
                                                 choices: nat -> Choice, now: int)
    requires RemoteCommands.Sound(y) && OneLife(life) && cmd in RemoteCommands.Run(y, life).commands
    requires cmd !in y.commands
    requires RemoteCommands.Run(y, life).commands[cmd].watched
    ensures var z := RemoteCommands.Run(y, life);
      RemoteCommands.Sound(z) && Followed(z, cmd) && Resolved(Driven(z, cmd, choices, 6, now).commands[cmd].state)
  {
    LifeFollowedIff(y, life, cmd);
    RemoteCommands.RunSound(y, life);
    assert Distance(Driven(RemoteCommands.Run(y, life), cmd, choices, 6, now), cmd) == 0;
  }

  lemma ExpiryLeaves(z: System, cmd: CommandId, session: SessionId, choice: Choice, now: int)
    requires Expire(cmd) in z.tasks
    ensures var z' := RemoteCommands.Step(z, Continue(Expire(cmd), choice), now);
      z'.tables == z.tables && (WillConfirm(z, cmd, session) ==> WillConfirm(z', cmd, session))
  {
    OthersWait(z, Expire(cmd), choice, now, RemoteCommands.Step(z, Continue(Expire(cmd), choice), now));
  }

  /** Expiry is honest: a stop it gives up on either has an unfinished session or is about to be
      confirmed by a step that lost the race. */
  lemma {:induction false} ExpiryIsHonest(y: System, life: seq<RemoteCommands.Timed>, cmd: CommandId,
                                          session: SessionId, choice: Choice, now: int)
    requires RemoteCommands.Sound(y) && OneLife(life) && cmd in RemoteCommands.Run(y, life).commands
    requires cmd !in y.commands
    requires var c := RemoteCommands.Run(y, life).commands[cmd];
      c.kind.StopCommand? && c.state == Accepted && c.session == Some(session)
    requires OwnStops(RemoteCommands.Run(y, life), session) && NeverLate(y, life, cmd)
    ensures var z := RemoteCommands.Run(y, life);
      var z' := RemoteCommands.Step(z, Continue(Expire(cmd), choice), now);
      cmd in z'.commands && (z'.commands[cmd].state == Unconfirmed ==>
        !CompletedIn(z'.tables, session) || WillConfirm(z', cmd, session))
  {
    RemoteCommands.RunSound(y, life);
    var z := RemoteCommands.Run(y, life);
    NoMissedStop(y, life, cmd, session);
    StepMoves(z, Continue(Expire(cmd), choice), now, cmd);
    if Expire(cmd) in z.tasks { ExpiryLeaves(z, cmd, session, choice, now); }
  }

  // ---------------------------------------------------------------- restarts

  /** Nothing waiting will answer for the command. */
  ghost predicate Unanswered(y: System, cmd: CommandId) {
    forall task :: task in y.tasks && (task.Dispatch? || task.AwaitAnswer? || task.Settle?) ==> task.cmd != cmd
  }

  /** No timer runs for the command and nothing waiting will register, check, confirm or expire it. */
  ghost predicate Unheard(y: System, cmd: CommandId) {
    && cmd !in y.timers
    && forall task :: task in y.tasks && (task.RegisterAccepted? || task.CheckNow? || task.Confirm? || task.Expire?) ==>
      task.cmd != cmd
  }

  predicate EndedIn(t: Tables, session: SessionId) {
    session in t.sessions && Terminal(t.sessions[session].status)
  }

  /** Nothing waiting and nothing that can still happen will move the command. */
  ghost predicate Stranded(y: System, cmd: CommandId)
    requires cmd in y.commands
  {
    var c := y.commands[cmd];
    match c.state
    case Requested => Unanswered(y, cmd)
    case Sent => Unanswered(y, cmd)
    case Accepted =>
      && Unheard(y, cmd) && !c.kind.StartCommand?
      && (c.kind.StopCommand? ==>
            c.session.Some? && EndedIn(y.tables, c.session.value) && ObserveStop(c.session.value) !in y.tasks)
    case _ => false
  }

  /** A task only queues a later step of its own command, or a confirmation. */
  lemma Spawned(y: System, task: Task, choice: Choice, now: int, other: Task)
    requires other in Perform(Without(y, task), task, choice, now).tasks
    ensures other in y.tasks || other.RegisterAccepted? || other.CheckNow? || other.Confirm?
      || ((other.AwaitAnswer? || other.Settle?) && (task.Dispatch? || task.AwaitAnswer?) && other.cmd == task.cmd)
  {
    assert other in Without(y, task).tasks ==> other in y.tasks;
  }

  lemma UnansweredPerform(y: System, task: Task, choice: Choice, now: int, cmd: CommandId)
    requires cmd in y.commands && Unanswered(y, cmd) && task in y.tasks
    requires y.commands[cmd].state == Requested || y.commands[cmd].state == Sent
    ensures var y' := Perform(Without(y, task), task, choice, now);
      cmd in y'.commands && y'.commands[cmd] == y.commands[cmd] && Unanswered(y', cmd)
  {
    var y' := Perform(Without(y, task), task, choice, now);
    forall other | other in y'.tasks && (other.Dispatch? || other.AwaitAnswer? || other.Settle?)
      ensures other.cmd != cmd
    {
      Spawned(y, task, choice, now, other);
    }
    RowUntouched(y, task, choice, now, cmd);
  }

  lemma RowUntouched(y: System, task: Task, choice: Choice, now: int, cmd: CommandId)
    requires cmd in y.commands && (y.commands[cmd].state == Requested || y.commands[cmd].state == Sent)
    requires (task.Dispatch? || task.AwaitAnswer? || task.Settle?) ==> task.cmd != cmd
    ensures var y' := Perform(Without(y, task), task, choice, now);
      cmd in y'.commands && y'.commands[cmd] == y.commands[cmd]
  {
    UnansweredRow(Without(y, task), task, choice, now, cmd);
  }

  lemma UnansweredRow(y: System, task: Task, choice: Choice, now: int, cmd: CommandId)
    requires cmd in y.commands && (y.commands[cmd].state == Requested || y.commands[cmd].state == Sent)
    requires (task.Dispatch? || task.AwaitAnswer? || task.Settle?) ==> task.cmd != cmd
    ensures var y' := Perform(y, task, choice, now);
      cmd in y'.commands && y'.commands[cmd] == y.commands[cmd]
  {
  }

  lemma AcceptedRowUntouched(y: System, task: Task, choice: Choice, now: int, cmd: CommandId)
    requires cmd in y.commands && y.commands[cmd].state == Accepted
    requires (task.Confirm? || task.Expire?) ==> task.cmd != cmd
    ensures var y' := Perform(y, task, choice, now);
      cmd in y'.commands && y'.commands[cmd] == y.commands[cmd] && y'.tables == y.tables
  {
  }

  /** What would have to run before the command is heard of again. */
  lemma HeardFrom(y: System, task: Task, choice: Choice, now: int, cmd: CommandId, other: Task)
    requires task in y.tasks && ValidChoice(y, task, choice) && cmd in y.commands && y.commands[cmd].state == Accepted
    requires other in Perform(Without(y, task), task, choice, now).tasks && other !in y.tasks
    requires (other.RegisterAccepted? || other.CheckNow? || other.Confirm? || other.Expire?) && other.cmd == cmd
    ensures ((task.RegisterAccepted? || task.CheckNow?) && task.cmd == cmd)
      || (task.ObserveStart? && y.commands[cmd].kind.StartCommand?)
      || (task.ObserveStop? && y.commands[cmd].kind.StopCommand? && y.commands[cmd].session == Some(task.session))
  {
    assert other !in Without(y, task).tasks;
  }

  lemma NoTaskObservesStop(y: System, task: Task, choice: Choice, now: int, session: SessionId)
    requires ObserveStop(session) !in y.tasks
    ensures ObserveStop(session) !in Perform(Without(y, task), task, choice, now).tasks
  {
    assert ObserveStop(session) !in Without(y, task).tasks;
  }

  lemma TimersFrom(y: System, task: Task, choice: Choice, now: int, cmd: CommandId)
    requires cmd !in y.timers && task != RegisterAccepted(cmd)
    ensures cmd !in Perform(y, task, choice, now).timers
  {
  }

  lemma AcceptedStrandedTask(y: System, task: Task, choice: Choice, now: int, cmd: CommandId)
    requires task in y.tasks && ValidChoice(y, task, choice)
    requires cmd in y.commands && y.commands[cmd].state == Accepted && Stranded(y, cmd)
    ensures var y' := Perform(Without(y, task), task, choice, now);
      cmd in y'.commands && y'.commands[cmd] == y.commands[cmd] && Stranded(y', cmd)
  {
    var y' := Perform(Without(y, task), task, choice, now);
    AcceptedRowUntouched(Without(y, task), task, choice, now, cmd);
    TimersFrom(Without(y, task), task, choice, now, cmd);
    forall other | other in y'.tasks && (other.RegisterAccepted? || other.CheckNow? || other.Confirm? || other.Expire?)
      ensures other.cmd != cmd
    {
      if other !in y.tasks && other.cmd == cmd { HeardFrom(y, task, choice, now, cmd, other); }
    }
    if y.commands[cmd].kind.StopCommand? { NoTaskObservesStop(y, task, choice, now, y.commands[cmd].session.value); }
  }

  /** Stranded with regard to what is waiting. */
  ghost predicate QuietTasks(y: System, cmd: CommandId)
    requires cmd in y.commands
  {
    var c := y.commands[cmd];
    if c.state != Accepted then Unanswered(y, cmd)
    else Unheard(y, cmd) && (c.kind.StopCommand? && c.session.Some? ==> ObserveStop(c.session.value) !in y.tasks)
  }

  lemma MessageEndsStay(y: System, e: Event, now: int, session: SessionId)
    requires RemoteCommands.Sound(y) && RemoteCommands.Enabled(y, e) && EndedIn(y.tables, session)
    requires e.StartTransaction? || e.StopTransaction? || e.SessionChange?
    ensures EndedIn(RemoteCommands.Step(y, e, now).tables, session)
  {
    TablesGrow(y, e, now);
    assert KeepsRow(y.tables, RemoteCommands.Step(y, e, now).tables, session);
  }

  /** A message queues at most an observation of a start, or of the stop of a session that had not ended. */
  lemma MessageQueues(y: System, e: Event, now: int, other: Task)
    requires RemoteCommands.Sound(y) && (e.StartTransaction? || e.StopTransaction? || e.SessionChange?)
    requires other in RemoteCommands.Step(y, e, now).tasks && other !in y.tasks
    ensures other.ObserveStart?
      || (other.ObserveStop? && other.session in y.tables.sessions && !EndedIn(y.tables, other.session))
  {
  }

  lemma MessageTasksQuiet(y: System, e: Event, now: int, cmd: CommandId)
    requires RemoteCommands.Sound(y) && cmd in y.commands && Stranded(y, cmd)
    requires e.StartTransaction? || e.StopTransaction? || e.SessionChange?
    ensures var y' := RemoteCommands.Step(y, e, now);
      cmd in y'.commands && y'.commands[cmd] == y.commands[cmd] && QuietTasks(y', cmd)
  {
    MessageKeeps(y, e, now);
    forall other | other in RemoteCommands.Step(y, e, now).tasks && other !in y.tasks
      ensures other.ObserveStart? || (other.ObserveStop? && !EndedIn(y.tables, other.session))
    {
      MessageQueues(y, e, now, other);
    }
  }

  lemma MessageStranded(y: System, e: Event, now: int, cmd: CommandId)
    requires RemoteCommands.Sound(y) && RemoteCommands.Enabled(y, e) && cmd in y.commands && Stranded(y, cmd)
    requires e.StartTransaction? || e.StopTransaction? || e.SessionChange?
    ensures var y' := RemoteCommands.Step(y, e, now);
      cmd in y'.commands && y'.commands[cmd] == y.commands[cmd] && Stranded(y', cmd)
  {
    MessageTasksQuiet(y, e, now, cmd);
    var c := y.commands[cmd];
    if c.state == Accepted && c.kind.StopCommand? { MessageEndsStay(y, e, now, c.session.value); }
  }

  lemma AskStranded(y: System, r: Request, now: int, cmd: CommandId)
    requires RemoteCommands.Sound(y) && cmd in y.commands && Stranded(y, cmd)
    ensures var y' := RemoteCommands.Step(y, Ask(r), now);
      cmd in y'.commands && y'.commands[cmd] == y.commands[cmd] && Stranded(y', cmd)
  {
    assert cmd != y.next;
  }

  lemma TimerStranded(y: System, fired: CommandId, now: int, cmd: CommandId)
    requires RemoteCommands.Sound(y) && fired in y.timers && cmd in y.commands && Stranded(y, cmd)
    ensures var y' := RemoteCommands.Step(y, TimerFires(fired), now);
      cmd in y'.commands && y'.commands[cmd] == y.commands[cmd] && Stranded(y', cmd)
  {
  }

  lemma TaskStranded(y: System, task: Task, choice: Choice, now: int, cmd: CommandId)
    requires task in y.tasks && ValidChoice(y, task, choice) && cmd in y.commands && Stranded(y, cmd)
    ensures var y' := Perform(Without(y, task), task, choice, now);
      cmd in y'.commands && y'.commands[cmd] == y.commands[cmd] && Stranded(y', cmd)
  {
    if y.commands[cmd].state == Accepted {
      AcceptedStrandedTask(y, task, choice, now, cmd);
    } else {
      UnansweredPerform(y, task, choice, now, cmd);
    }
  }

  lemma {:induction false} StrandedStep(y: System, e: Event, now: int, cmd: CommandId)
    requires RemoteCommands.Sound(y) && cmd in y.commands && Stranded(y, cmd)
    ensures var y' := RemoteCommands.Step(y, e, now);
      cmd in y'.commands && y'.commands[cmd] == y.commands[cmd] && Stranded(y', cmd)
  {
    if !RemoteCommands.Enabled(y, e) { return; }
    match e
    case Continue(task, choice) => TaskStranded(y, task, choice, now, cmd);
    case Ask(r) => AskStranded(y, r, now, cmd);
    case TimerFires(fired) => TimerStranded(y, fired, now, cmd);
    case ProcessRestart =>
    case _ => MessageStranded(y, e, now, cmd);
  }

  /** An accepted command that nobody registers and that is neither a start nor a stop is stranded
      for good without any restart. */
  lemma {:induction false} UnregisteredStranded(y: System, life: seq<RemoteCommands.Timed>, cmd: CommandId)
    requires RemoteCommands.Sound(y) && OneLife(life) && cmd in RemoteCommands.Run(y, life).commands
    requires cmd !in y.commands
    requires var c := RemoteCommands.Run(y, life).commands[cmd];
      !c.watched && c.state == Accepted && !c.kind.StartCommand? && !c.kind.StopCommand?
    ensures Stranded(RemoteCommands.Run(y, life), cmd)
  {
    LifeDue(y, life, cmd);
    RemoteCommands.RunSound(y, life);
    var z := RemoteCommands.Run(y, life);
    forall task | task in z.tasks && (task.RegisterAccepted? || task.CheckNow? || task.Confirm? || task.Expire?)
      ensures task.cmd != cmd
    {
      assert TaskSound(z.tables, z.commands, task);
    }
  }

  /** A command that later messages can still confirm: an ACCEPTED start, or an ACCEPTED stop whose
      session has not ended. */
  predicate Resumable(y: System, cmd: CommandId)
    requires cmd in y.commands
  {
    var c := y.commands[cmd];
    && c.state == Accepted
    && (c.kind.StartCommand? || (c.kind.StopCommand? && c.session.Some? && !EndedIn(y.tables, c.session.value)))
  }

  /** A restart strands every other command in flight for good: in every later run, further
      restarts included, its row never changes again. */
  lemma {:induction false} RestartStrands(y: System, at: int, es: seq<RemoteCommands.Timed>, cmd: CommandId)
    requires RemoteCommands.Sound(y) && cmd in y.commands && !Resolved(y.commands[cmd].state) && !Resumable(y, cmd)
    ensures var z := RemoteCommands.Run(RemoteCommands.Step(y, ProcessRestart, at), es);
      RemoteCommands.Sound(z) && cmd in z.commands && z.commands[cmd] == y.commands[cmd] && Stranded(z, cmd)
    decreases |es|
  {
    if es == [] {
      StepSound(y, ProcessRestart, at);
      assert CommandSound(y.tables, y.commands[cmd]);
    } else {
      var init, last := es[..|es| - 1], es[|es| - 1];
      RestartStrands(y, at, init, cmd);
      var z := RemoteCommands.Run(RemoteCommands.Step(y, ProcessRestart, at), init);
      StrandedStep(z, last.e, last.now, cmd);
      StepSound(z, last.e, last.now);
    }
  }

  ghost predicate ResolvedAfter(y: System, at: int, es: seq<RemoteCommands.Timed>, cmd: CommandId) {
    var z := RemoteCommands.Run(RemoteCommands.Step(y, ProcessRestart, at), es);
    cmd in z.commands && Resolved(z.commands[cmd].state)
  }

  /** After a restart a command in flight is resolved in some later run exactly when it is
      ACCEPTED and a start, or a stop whose session has not ended. */
  lemma {:induction false} RestartResolvableIff(y: System, at: int, cmd: CommandId)
    requires RemoteCommands.Sound(y) && cmd in y.commands && !Resolved(y.commands[cmd].state)
    ensures (exists es :: ResolvedAfter(y, at, es, cmd)) <==> Resumable(y, cmd)
  {
    if Resumable(y, cmd) {
      var z := RemoteCommands.Step(y, ProcessRestart, at);
      StepSound(y, ProcessRestart, at);
      var es;
      if y.commands[cmd].kind.StartCommand? {
        es := StartConfirms(z, cmd, at);
      } else {
        es := StopConfirms(z, cmd, at);
      }
      assert ResolvedAfter(y, at, es, cmd);
    } else {
      forall es ensures !ResolvedAfter(y, at, es, cmd) {
        RestartStrands(y, at, es, cmd);
      }
    }
  }

  lemma ThreeSteps(y: System, a: Event, b: Event, c: Event, now: int) returns (es: seq<RemoteCommands.Timed>)
    ensures RemoteCommands.Run(y, es) ==
      RemoteCommands.Step(RemoteCommands.Step(RemoteCommands.Step(y, a, now), b, now), c, now)
  {
    var t := (e: Event) => RemoteCommands.Timed.Timed(e, now);
    RunThen(y, [], a, now);
    RunThen(y, [] + [t(a)], b, now);
    RunThen(y, [] + [t(a)] + [t(b)], c, now);
    es := [] + [t(a)] + [t(b)] + [t(c)];
  }

  /** With nothing else waiting, an observation confirms the command it finds. */
  lemma ObservedAndConfirmed(y: System, task: Task, cmd: CommandId, now: int)
    requires y.tasks == multiset{task} && cmd in y.commands && y.commands[cmd].state == Accepted
    requires (task.ObserveStart? && AwaitsStart(y.commands[cmd], task.station, task.connector))
          || (task.ObserveStop? && AwaitsStop(y.commands[cmd], task.session))
    ensures var link := if task.ObserveStart? then Some(task.session) else None;
      var y1 := RemoteCommands.Step(y, Continue(task, Choice(true, NoAnswer, None, Some(cmd))), now);
      var y2 := RemoteCommands.Step(y1, Continue(Confirm(cmd, link), Choice(true, NoAnswer, None, None)), now);
      cmd in y2.commands && y2.commands[cmd].state == Confirmed
  {
    var link := if task.ObserveStart? then Some(task.session) else None;
    assert Without(y, task) == y.(tasks := multiset{});
    assert RemoteCommands.Step(y, Continue(task, Choice(true, NoAnswer, None, Some(cmd))), now)
        == y.(tasks := multiset{Confirm(cmd, link)});
  }

  lemma StartConfirms(z: System, cmd: CommandId, now: int) returns (es: seq<RemoteCommands.Timed>)
    requires RemoteCommands.Sound(z) && z.tasks == multiset{} && cmd in z.commands
    requires z.commands[cmd].kind.StartCommand? && z.commands[cmd].state == Accepted
    ensures cmd in RemoteCommands.Run(z, es).commands && RemoteCommands.Run(z, es).commands[cmd].state == Confirmed
  {
    var c := z.commands[cmd];
    assert CommandSound(z.tables, c);
    var start := StartTransaction(CreateInput(c.station, c.connector.value, 0, 0));
    var z1 := RemoteCommands.Step(z, start, now);
    var task := ObserveStart(c.station, c.connector.value, Answer(z.tables, Create(start.input), now).id);
    assert z1.tasks == multiset{task};
    ObservedAndConfirmed(z1, task, cmd, now);
    es := ThreeSteps(z, start, Continue(task, Choice(true, NoAnswer, None, Some(cmd))),
                     Continue(Confirm(cmd, Some(task.session)), Choice(true, NoAnswer, None, None)), now);
  }

  lemma StopConfirms(z: System, cmd: CommandId, now: int) returns (es: seq<RemoteCommands.Timed>)
    requires RemoteCommands.Sound(z) && z.tasks == multiset{} && cmd in z.commands
    requires z.commands[cmd].kind.StopCommand? && z.commands[cmd].state == Accepted && z.commands[cmd].session.Some?
    requires !EndedIn(z.tables, z.commands[cmd].session.value)
    ensures cmd in RemoteCommands.Run(z, es).commands && RemoteCommands.Run(z, es).commands[cmd].state == Confirmed
  {
    assert CommandSound(z.tables, z.commands[cmd]);
    var session := z.commands[cmd].session.value;
    var stop := StopTransaction(session, 0, NormalCompletion, now);
    StopWorks(z.tables, session, Stop(session, 0, NormalCompletion, now), now);
    var z1 := RemoteCommands.Step(z, stop, now);
    assert z1.tasks == multiset{ObserveStop(session)};
    ObservedAndConfirmed(z1, ObserveStop(session), cmd, now);
    es := ThreeSteps(z, stop, Continue(ObserveStop(session), Choice(true, NoAnswer, None, Some(cmd))),
                     Continue(Confirm(cmd, None), Choice(true, NoAnswer, None, None)), now);
  }

  /** Stopping a session that has not ended goes through and completes it. */
  lemma StopWorks(t: Tables, session: SessionId, stop: Op, now: int)
    requires Sessions.Valid(t) && session in t.sessions && !Terminal(t.sessions[session].status)
    requires stop.Stop? && stop.stopped == session
    ensures StopGoesThrough(t, stop, now) && CompletedIn(Apply(t, stop, now), session)
  {
    assert RowWise(t.sessions[session], t.rows[session]);
  }

  /** And a stranded command blocks its target for good: every later request that clashes with it
      is refused. */
  lemma {:induction false} StrandedBlocks(y: System, at: int, es: seq<RemoteCommands.Timed>, cmd: CommandId,
                                          r: Request, now: int)
    requires RemoteCommands.Sound(y) && cmd in y.commands && !Resolved(y.commands[cmd].state) && !Resumable(y, cmd)
    requires var z := RemoteCommands.Run(RemoteCommands.Step(y, ProcessRestart, at), es);
      Clash(y.commands[cmd], Asked(z.tables, r, now))
    ensures RefusalOf(RemoteCommands.Run(RemoteCommands.Step(y, ProcessRestart, at), es), r, now).Some?
  {
    RestartStrands(y, at, es, cmd);
    var z := RemoteCommands.Run(RemoteCommands.Step(y, ProcessRestart, at), es);
    assert InFlight(z.commands, Asked(z.tables, r, now));
  }
}
