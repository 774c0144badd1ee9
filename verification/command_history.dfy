/** Why a command is in the state it is in: who asked for it, what the charger answered, and which
    step of the run put it there. */
module CommandHistory {
  import opened Common
  import opened Sessions
  import opened RemoteCommands
  import opened CommandOutcomes
  import opened CommandLimits

  // ---------------------------------------------------------------- one step

  /** The only steps that bring a command into the given state. */
  ghost predicate Causes(y: System, e: Event, cmd: CommandId, s: State)
    requires cmd in y.commands
  {
    && e.Continue? && RemoteCommands.Enabled(y, e)
    && var was := y.commands[cmd].state;
    match s
    case Requested => false
    case Sent => e.task == AwaitAnswer(cmd) && was == Requested
    case Accepted => e.task == Settle(cmd, ChargerAccepts) && was == Sent
    case Rejected =>
      && (was == Requested || was == Sent)
      && ((e.task == Dispatch(cmd) && !e.choice.sendable) || e.task == Settle(cmd, ChargerRejects))
    case TimedOut => e.task == Settle(cmd, NoAnswer) && was == Sent
    case Confirmed => e.task.Confirm? && e.task.cmd == cmd && was == Accepted
    case Unconfirmed => e.task == Expire(cmd) && was == Accepted
  }

  /** The row changed to the given state exactly if the event causes it, and resolved at that moment. */
  ghost predicate CausedStep(y: System, e: Event, y': System, now: int, cmd: CommandId, s: State)
    requires cmd in y.commands
  {
    && cmd in y'.commands
    && (y'.commands[cmd].state == s && y.commands[cmd].state != s <==> Causes(y, e, cmd, s))
    && (y'.commands[cmd].state != y.commands[cmd].state && Resolved(y'.commands[cmd].state) ==>
          y'.commands[cmd].resolvedAt == Some(now))
  }

  lemma DispatchCauses(y: System, choice: Choice, now: int, cmd: CommandId, s: State)
    requires Dispatch(cmd) in y.tasks && cmd in y.commands
    ensures var y' := Perform(Without(y, Dispatch(cmd)), Dispatch(cmd), choice, now);
      CausedStep(y, Continue(Dispatch(cmd), choice), y', now, cmd, s)
  {
  }

  lemma AnswerCauses(y: System, choice: Choice, now: int, cmd: CommandId, s: State)
    requires AwaitAnswer(cmd) in y.tasks && cmd in y.commands
    ensures var y' := Perform(Without(y, AwaitAnswer(cmd)), AwaitAnswer(cmd), choice, now);
      CausedStep(y, Continue(AwaitAnswer(cmd), choice), y', now, cmd, s)
  {
  }

  lemma SettleCauses(y: System, outcome: Outcome, choice: Choice, now: int, cmd: CommandId, s: State)
    requires Settle(cmd, outcome) in y.tasks && cmd in y.commands
    ensures var y' := Perform(Without(y, Settle(cmd, outcome)), Settle(cmd, outcome), choice, now);
      CausedStep(y, Continue(Settle(cmd, outcome), choice), y', now, cmd, s)
  {
    SettledRow(Without(y, Settle(cmd, outcome)), outcome, choice, now, cmd);
  }

  /** A settlement writes the row of a command that is SENT, or REQUESTED when it fails. */
  lemma SettledRow(y: System, outcome: Outcome, choice: Choice, now: int, cmd: CommandId)
    requires cmd in y.commands
    ensures var c, y' := y.commands[cmd], Perform(y, Settle(cmd, outcome), choice, now);
      && cmd in y'.commands
      && y'.commands[cmd] ==
        match outcome
        case ChargerAccepts => if c.state == Sent then Moved(c, Accepted, now) else c
        case ChargerRejects => if c.state == Sent || c.state == Requested then Moved(c, Rejected, now) else c
        case NoAnswer => if c.state == Sent then Moved(c, TimedOut, now) else c
  {
  }

  lemma LaterTaskCauses(y: System, task: Task, choice: Choice, now: int, s: State)
    requires task.RegisterAccepted? || task.CheckNow? || task.Confirm? || task.Expire?
    requires task in y.tasks && ValidChoice(y, task, choice) && task.cmd in y.commands
    ensures var y' := Perform(Without(y, task), task, choice, now);
      CausedStep(y, Continue(task, choice), y', now, task.cmd, s)
  {
  }

  lemma TaskCauses(y: System, task: Task, choice: Choice, now: int, cmd: CommandId, s: State)
    requires task in y.tasks && ValidChoice(y, task, choice) && cmd in y.commands
    ensures var y' := Perform(Without(y, task), task, choice, now);
      CausedStep(y, Continue(task, choice), y', now, cmd, s)
  {
    if task.ObserveStart? || task.ObserveStop? || task.cmd != cmd {
      ElsewhereUntouched(y, task, choice, now, cmd);
    } else {
      match task
      case Dispatch(_) => DispatchCauses(y, choice, now, cmd, s);
      case AwaitAnswer(_) => AnswerCauses(y, choice, now, cmd, s);
      case Settle(_, outcome) => SettleCauses(y, outcome, choice, now, cmd, s);
      case _ => LaterTaskCauses(y, task, choice, now, s);
    }
  }

  /** An event other than a task leaves every row alone. */
  lemma OnlyTasksMove(y: System, e: Event, now: int, cmd: CommandId)
    requires RemoteCommands.Sound(y) && cmd in y.commands && !(e.Continue? && RemoteCommands.Enabled(y, e))
    ensures cmd in RemoteCommands.Step(y, e, now).commands
    ensures RemoteCommands.Step(y, e, now).commands[cmd] == y.commands[cmd]
  {
    if e.Ask? {
      AskedBeside(y, e.request, now, cmd);
    } else if e.StartTransaction? || e.StopTransaction? || e.SessionChange? {
      MessageKeeps(y, e, now);
    }
  }

  /** Each state is entered exactly by its own step, and a resolution carries the time of that step. */
  lemma {:induction false} BecomesIff(y: System, e: Event, now: int, cmd: CommandId, s: State)
    requires RemoteCommands.Sound(y) && cmd in y.commands
    ensures CausedStep(y, e, RemoteCommands.Step(y, e, now), now, cmd, s)
  {
    if e.Continue? && RemoteCommands.Enabled(y, e) {
      TaskCauses(y, e.task, e.choice, now, cmd, s);
    } else {
      OnlyTasksMove(y, e, now, cmd);
    }
  }

  // ---------------------------------------------------------------- over whole runs

  ghost predicate CausedAt(es: seq<RemoteCommands.Timed>, k: int, cmd: CommandId, c: Command) {
    && 0 <= k < |es|
    && var y := RemoteCommands.Run(INITIALLY, es[..k]);
    && cmd in y.commands && Causes(y, es[k].e, cmd, c.state)
    && (Resolved(c.state) ==> c.resolvedAt == Some(es[k].now))
  }

  /** The step that put the command in its state is still that one while the state stays. */
  lemma StillCaused(es: seq<RemoteCommands.Timed>, k: int, cmd: CommandId, c: Command, c': Command)
    requires es != [] && CausedAt(es[..|es| - 1], k, cmd, c)
    requires c'.state == c.state && (Resolved(c.state) ==> c' == c)
    ensures CausedAt(es, k, cmd, c')
  {
    assert es[..|es| - 1][..k] == es[..k];
  }

  lemma JustCaused(es: seq<RemoteCommands.Timed>, cmd: CommandId)
    requires es != []
    requires var y, y' := RemoteCommands.Run(INITIALLY, es[..|es| - 1]), RemoteCommands.Run(INITIALLY, es);
      cmd in y.commands && cmd in y'.commands && y'.commands[cmd].state != y.commands[cmd].state
    ensures CausedAt(es, |es| - 1, cmd, RemoteCommands.Run(INITIALLY, es).commands[cmd])
  {
    var last := es[|es| - 1];
    RemoteCommands.RunSound(INITIALLY, es[..|es| - 1]);
    BecomesIff(RemoteCommands.Run(INITIALLY, es[..|es| - 1]), last.e, last.now, cmd,
               RemoteCommands.Run(INITIALLY, es).commands[cmd].state);
  }

  lemma LastMoves(es: seq<RemoteCommands.Timed>, cmd: CommandId)
    requires es != []
    ensures var y, y' := RemoteCommands.Run(INITIALLY, es[..|es| - 1]), RemoteCommands.Run(INITIALLY, es);
      && (cmd in y.commands ==> cmd in y'.commands && OneMove(y.commands[cmd], y'.commands[cmd]))
      && (cmd !in y.commands && cmd in y'.commands ==> y'.commands[cmd].state == Requested)
  {
    var y, last := RemoteCommands.Run(INITIALLY, es[..|es| - 1]), es[|es| - 1];
    RemoteCommands.RunSound(INITIALLY, es[..|es| - 1]);
    if cmd in y.commands {
      StepMoves(y, last.e, last.now, cmd);
    } else if cmd in RemoteCommands.Run(INITIALLY, es).commands {
      NewIsRequested(y, last.e, last.now, cmd);
    }
  }

  /** In every run a command that is no longer REQUESTED was put in its state by that step, and if it is
      resolved its resolution time is the time of that step. */
  lemma {:induction false} StateCaused(es: seq<RemoteCommands.Timed>, cmd: CommandId) returns (k: int)
    requires cmd in RemoteCommands.Run(INITIALLY, es).commands
    requires RemoteCommands.Run(INITIALLY, es).commands[cmd].state != Requested
    ensures CausedAt(es, k, cmd, RemoteCommands.Run(INITIALLY, es).commands[cmd])
    decreases |es|
  {
    var y, c := RemoteCommands.Run(INITIALLY, es[..|es| - 1]), RemoteCommands.Run(INITIALLY, es).commands[cmd];
    LastMoves(es, cmd);
    if y.commands[cmd].state == c.state {
      k := StateCaused(es[..|es| - 1], cmd);
      StillCaused(es, k, cmd, y.commands[cmd], c);
    } else {
      k := |es| - 1;
      JustCaused(es, cmd);
    }
  }

  // ---------------------------------------------------------------- what the request came to

  /** What became of sending the command: nothing yet, it could not be sent, or the charger answered. */
  datatype Fate = Undecided | Unsendable | Answered(outcome: Outcome)

  ghost function NextFate(y: System, e: Event, cmd: CommandId, fate: Fate): Fate {
    if !e.Continue? || !RemoteCommands.Enabled(y, e) || cmd !in y.commands then fate
    else if e.task == Dispatch(cmd) && !e.choice.sendable then Unsendable
    else if e.task == AwaitAnswer(cmd) then Answered(e.choice.outcome)
    else fate
  }

  ghost function FateOf(es: seq<RemoteCommands.Timed>, cmd: CommandId): Fate {
    if es == [] then Undecided
    else NextFate(RemoteCommands.Run(INITIALLY, es[..|es| - 1]), es[|es| - 1].e, cmd, FateOf(es[..|es| - 1], cmd))
  }

  /** Neither dispatch nor answer of the command is waiting. */
  ghost predicate NotSending(tasks: multiset<Task>, cmd: CommandId) {
    Dispatch(cmd) !in tasks && AwaitAnswer(cmd) !in tasks
  }

  ghost predicate NothingToSettle(tasks: multiset<Task>, cmd: CommandId) {
    forall o :: Settle(cmd, o) !in tasks
  }

  predicate Settled(s: State, o: Outcome) {
    match o
    case ChargerAccepts => s == Accepted || s == Confirmed || s == Unconfirmed
    case ChargerRejects => s == Rejected
    case NoAnswer => s == TimedOut
  }

  /** The state and what is waiting agree with what the request came to. */
  ghost predicate OnlyToSettle(tasks: multiset<Task>, cmd: CommandId, o: Outcome) {
    tasks[Settle(cmd, o)] <= 1 && forall other :: Settle(cmd, other) in tasks ==> other == o
  }

  ghost predicate Fated(y: System, cmd: CommandId, fate: Fate) {
    if cmd !in y.commands then fate == Undecided
    else
      var s := y.commands[cmd].state;
      match fate
      case Undecided =>
        && s == Requested && NothingToSettle(y.tasks, cmd)
        && y.tasks[Dispatch(cmd)] + y.tasks[AwaitAnswer(cmd)] <= 1
      case Unsendable => s == Rejected && NotSending(y.tasks, cmd) && NothingToSettle(y.tasks, cmd)
      case Answered(o) =>
        && NotSending(y.tasks, cmd)
        && if s == Sent then OnlyToSettle(y.tasks, cmd, o) else Settled(s, o) && NothingToSettle(y.tasks, cmd)
  }

  /** No other task queues a command's dispatch, answer or settlement. */
  lemma NotQueuedBy(y: System, task: Task, choice: Choice, now: int, x: Task)
    requires x.Dispatch? || x.AwaitAnswer? || x.Settle?
    requires (task.Dispatch? || task.AwaitAnswer? || task.Settle?) ==> task.cmd != x.cmd
    ensures Perform(y, task, choice, now).tasks[x] == y.tasks[x]
  {
    match task
    case Dispatch(_) =>
    case AwaitAnswer(_) =>
    case Settle(_, _) =>
    case RegisterAccepted(_) =>
    case CheckNow(_) =>
    case ObserveStart(_, _, _) =>
    case ObserveStop(_) =>
    case Confirm(_, _) =>
    case Expire(_) =>
  }

  lemma FlowUntouched(y: System, task: Task, choice: Choice, now: int, x: Task)
    requires x.Dispatch? || x.AwaitAnswer? || x.Settle?
    requires task in y.tasks && ((task.Dispatch? || task.AwaitAnswer? || task.Settle?) ==> task.cmd != x.cmd)
    ensures Perform(Without(y, task), task, choice, now).tasks[x] == y.tasks[x]
  {
    NotQueuedBy(Without(y, task), task, choice, now, x);
    assert task != x;
  }

  lemma OtherTaskFated(y: System, task: Task, choice: Choice, now: int, cmd: CommandId, fate: Fate)
    requires task in y.tasks && ValidChoice(y, task, choice) && cmd in y.commands && Fated(y, cmd, fate)
    requires (task.Dispatch? || task.AwaitAnswer? || task.Settle?) ==> task.cmd != cmd
    ensures Fated(Perform(Without(y, task), task, choice, now), cmd, fate)
  {
    var y' := Perform(Without(y, task), task, choice, now);
    FlowUntouched(y, task, choice, now, Dispatch(cmd));
    FlowUntouched(y, task, choice, now, AwaitAnswer(cmd));
    forall o ensures y'.tasks[Settle(cmd, o)] == y.tasks[Settle(cmd, o)] {
      FlowUntouched(y, task, choice, now, Settle(cmd, o));
    }
    OtherTaskState(y, task, choice, now, cmd);
  }

  /** Such a task moves the command at most from ACCEPTED on. */
  lemma OtherTaskState(y: System, task: Task, choice: Choice, now: int, cmd: CommandId)
    requires task in y.tasks && ValidChoice(y, task, choice) && cmd in y.commands
    requires (task.Dispatch? || task.AwaitAnswer? || task.Settle?) ==> task.cmd != cmd
    ensures var y' := Perform(Without(y, task), task, choice, now);
      && cmd in y'.commands
      && (y'.commands[cmd].state == y.commands[cmd].state
          || (y.commands[cmd].state == Accepted && y'.commands[cmd].state in {Confirmed, Unconfirmed}))
  {
    var y' := Perform(Without(y, task), task, choice, now);
    TaskCauses(y, task, choice, now, cmd, Confirmed);
    TaskCauses(y, task, choice, now, cmd, y'.commands[cmd].state);
  }

  lemma DispatchFated(y: System, choice: Choice, now: int, cmd: CommandId, fate: Fate)
    requires Dispatch(cmd) in y.tasks && cmd in y.commands && Fated(y, cmd, fate)
    ensures Fated(Perform(Without(y, Dispatch(cmd)), Dispatch(cmd), choice, now), cmd,
                  if choice.sendable then fate else Unsendable)
  {
    var y1 := Without(y, Dispatch(cmd));
    assert y1.tasks[Dispatch(cmd)] == y.tasks[Dispatch(cmd)] - 1
      && y1.tasks[AwaitAnswer(cmd)] == y.tasks[AwaitAnswer(cmd)];
    assert forall o :: Settle(cmd, o) !in y1.tasks;
  }

  lemma AnswerFated(y: System, choice: Choice, now: int, cmd: CommandId, fate: Fate)
    requires AwaitAnswer(cmd) in y.tasks && cmd in y.commands && Fated(y, cmd, fate)
    ensures Fated(Perform(Without(y, AwaitAnswer(cmd)), AwaitAnswer(cmd), choice, now), cmd, Answered(choice.outcome))
  {
    var y1 := Without(y, AwaitAnswer(cmd));
    assert y1.tasks[AwaitAnswer(cmd)] == y.tasks[AwaitAnswer(cmd)] - 1
      && y1.tasks[Dispatch(cmd)] == y.tasks[Dispatch(cmd)];
    assert forall o :: y1.tasks[Settle(cmd, o)] == 0;
    var y' := Perform(y1, AwaitAnswer(cmd), choice, now);
    assert y'.tasks == y1.tasks + multiset{Settle(cmd, choice.outcome)};
  }

  /** A settlement queues nothing to send and nothing to settle. */
  lemma SettledTasks(y: System, outcome: Outcome, choice: Choice, now: int, cmd: CommandId)
    requires NotSending(y.tasks, cmd) && NothingToSettle(y.tasks, cmd)
    ensures var y' := Perform(y, Settle(cmd, outcome), choice, now);
      NotSending(y'.tasks, cmd) && NothingToSettle(y'.tasks, cmd)
  {
    var y' := Perform(y, Settle(cmd, outcome), choice, now);
    assert y'.tasks == y.tasks || y'.tasks == y.tasks + multiset{RegisterAccepted(cmd)};
  }

  lemma SettleFated(y: System, outcome: Outcome, choice: Choice, now: int, cmd: CommandId, fate: Fate)
    requires Settle(cmd, outcome) in y.tasks && cmd in y.commands && Fated(y, cmd, fate)
    ensures Fated(Perform(Without(y, Settle(cmd, outcome)), Settle(cmd, outcome), choice, now), cmd, fate)
  {
    var task := Settle(cmd, outcome);
    var y1 := Without(y, task);
    assert y1.tasks[task] == y.tasks[task] - 1;
    assert forall o :: o != outcome ==> y1.tasks[Settle(cmd, o)] == y.tasks[Settle(cmd, o)];
    assert NotSending(y1.tasks, cmd) && NothingToSettle(y1.tasks, cmd);
    var y' := Perform(y1, task, choice, now);
    SettledTasks(y1, outcome, choice, now, cmd);
    SettledRow(y1, outcome, choice, now, cmd);
  }

  lemma TaskFated(y: System, task: Task, choice: Choice, now: int, cmd: CommandId, fate: Fate)
    requires task in y.tasks && ValidChoice(y, task, choice) && cmd in y.commands && Fated(y, cmd, fate)
    ensures Fated(Perform(Without(y, task), task, choice, now), cmd, NextFate(y, Continue(task, choice), cmd, fate))
  {
    if task == Dispatch(cmd) {
      DispatchFated(y, choice, now, cmd, fate);
    } else if task == AwaitAnswer(cmd) {
      AnswerFated(y, choice, now, cmd, fate);
    } else if task.Settle? && task.cmd == cmd {
      SettleFated(y, task.outcome, choice, now, cmd, fate);
    } else {
      OtherTaskFated(y, task, choice, now, cmd, fate);
    }
  }

  /** A command just asked for has its dispatch waiting and nothing else. */
  lemma NewFated(y: System, r: Request, now: int)
    requires RemoteCommands.Sound(y) && RefusalOf(y, r, now) == None
    ensures Fated(RemoteCommands.Step(y, Ask(r), now), y.next, Undecided)
  {
    assert forall task :: task in y.tasks ==> TaskSound(y.tables, y.commands, task);
    assert y.next !in y.commands;
    assert y.tasks[Dispatch(y.next)] == 0 && y.tasks[AwaitAnswer(y.next)] == 0;
    forall o ensures Settle(y.next, o) !in y.tasks {
    }
  }

  /** Messages, timers and other requests queue none of the command's own steps. */
  lemma OtherEventFated(y: System, e: Event, now: int, cmd: CommandId, fate: Fate)
    requires RemoteCommands.Sound(y) && RemoteCommands.Enabled(y, e) && !e.Continue? && !e.ProcessRestart?
    requires cmd in y.commands && Fated(y, cmd, fate)
    ensures Fated(RemoteCommands.Step(y, e, now), cmd, fate)
  {
    OnlyTasksMove(y, e, now, cmd);
    OtherEventTasks(y, e, now, cmd);
  }

  lemma OtherEventTasks(y: System, e: Event, now: int, cmd: CommandId)
    requires RemoteCommands.Sound(y) && RemoteCommands.Enabled(y, e) && !e.Continue? && !e.ProcessRestart?
    requires cmd in y.commands
    ensures var y' := RemoteCommands.Step(y, e, now);
      && y'.tasks[Dispatch(cmd)] == y.tasks[Dispatch(cmd)] && y'.tasks[AwaitAnswer(cmd)] == y.tasks[AwaitAnswer(cmd)]
      && forall o :: y'.tasks[Settle(cmd, o)] == y.tasks[Settle(cmd, o)]
  {
    assert cmd != y.next;
  }

  lemma StepFated(y: System, e: Event, now: int, cmd: CommandId, fate: Fate)
    requires RemoteCommands.Sound(y) && Fated(y, cmd, fate)
    ensures Fated(RemoteCommands.Step(y, e, now), cmd, NextFate(y, e, cmd, fate))
  {
    if !RemoteCommands.Enabled(y, e) { return; }
    if cmd !in y.commands {
      if cmd in RemoteCommands.Step(y, e, now).commands {
        NewIsRequested(y, e, now, cmd);
        NewFated(y, e.request, now);
      }
    } else if e.Continue? {
      TaskFated(y, e.task, e.choice, now, cmd, fate);
    } else if !e.ProcessRestart? {
      OtherEventFated(y, e, now, cmd, fate);
    }
  }

  lemma {:induction false} RunFated(es: seq<RemoteCommands.Timed>, cmd: CommandId)
    ensures Fated(RemoteCommands.Run(INITIALLY, es), cmd, FateOf(es, cmd))
    decreases |es|
  {
    if es != [] {
      RunFated(es[..|es| - 1], cmd);
      RemoteCommands.RunSound(INITIALLY, es[..|es| - 1]);
      StepFated(RemoteCommands.Run(INITIALLY, es[..|es| - 1]), es[|es| - 1].e, es[|es| - 1].now, cmd,
                FateOf(es[..|es| - 1], cmd));
    }
  }

  /** In every run, restarts included: a command's state says what its request came to. REQUESTED is
      nothing yet; a command that could not be sent is REJECTED; SENT is an answer not yet recorded;
      and once recorded, silence is TIMED_OUT, a rejection REJECTED, and an acceptance ACCEPTED and
      what can follow it. */
  lemma {:induction false} AnswerIsRecorded(es: seq<RemoteCommands.Timed>, cmd: CommandId)
    requires cmd in RemoteCommands.Run(INITIALLY, es).commands
    ensures var s, fate := RemoteCommands.Run(INITIALLY, es).commands[cmd].state, FateOf(es, cmd);
      && (s == Requested <==> fate == Undecided)
      && (s == Rejected <==> fate == Unsendable || (fate == Answered(ChargerRejects) && s != Sent))
      && (s == TimedOut <==> fate == Answered(NoAnswer) && s != Sent)
      && (s == Accepted || s == Confirmed || s == Unconfirmed <==> fate == Answered(ChargerAccepts) && s != Sent)
  {
    RunFated(es, cmd);
    FatedMeans(RemoteCommands.Run(INITIALLY, es), cmd, FateOf(es, cmd));
  }

  lemma FatedMeans(y: System, cmd: CommandId, fate: Fate)
    requires cmd in y.commands && Fated(y, cmd, fate)
    ensures var s := y.commands[cmd].state;
      && (s == Requested <==> fate == Undecided)
      && (s == Rejected <==> fate == Unsendable || (fate == Answered(ChargerRejects) && s != Sent))
      && (s == TimedOut <==> fate == Answered(NoAnswer) && s != Sent)
      && (s == Accepted || s == Confirmed || s == Unconfirmed <==> fate == Answered(ChargerAccepts) && s != Sent)
  {
  }

  /** And what it came to is decided once. */
  lemma FateIsFinal(es: seq<RemoteCommands.Timed>, cmd: CommandId)
    requires es != [] && FateOf(es[..|es| - 1], cmd) != Undecided
    ensures FateOf(es, cmd) == FateOf(es[..|es| - 1], cmd)
  {
    RunFated(es[..|es| - 1], cmd);
  }

  /** A stop message takes effect exactly on a session that has not ended; on any other it changes
      nothing, and nothing is observed. */
  lemma StopTakesEffectIff(y: System, stop: Event, now: int)
    requires RemoteCommands.Sound(y) && stop.StopTransaction?
    ensures var y' := RemoteCommands.Step(y, stop, now);
      if stop.session in y.tables.sessions && !Terminal(y.tables.sessions[stop.session].status)
      then CompletedIn(y'.tables, stop.session) && y'.tasks == y.tasks + multiset{ObserveStop(stop.session)}
      else y' == y
  {
    var op := Stop(stop.session, stop.meterStop, stop.reason, stop.endedAt);
    if stop.session in y.tables.sessions && !Terminal(y.tables.sessions[stop.session].status) {
      StopWorks(y.tables, stop.session, op, now);
    }
  }

  // ---------------------------------------------------------------- who asked

  ghost predicate AskedAt(es: seq<RemoteCommands.Timed>, k: int, cmd: CommandId, r: Request, at: int) {
    && 0 <= k < |es| && es[k] == RemoteCommands.Timed.Timed(Ask(r), at)
    && var y := RemoteCommands.Run(INITIALLY, es[..k]);
    y.next == cmd && RefusalOf(y, r, at) == None
  }

  /** Every command goes back to one request that no check refused, and carries its time. */
  lemma {:induction false} AskedFor(es: seq<RemoteCommands.Timed>, cmd: CommandId)
    requires cmd in RemoteCommands.Run(INITIALLY, es).commands
    ensures var c := RemoteCommands.Run(INITIALLY, es).commands[cmd];
      RequestOf(es, cmd).Some? && exists k :: AskedAt(es, k, cmd, RequestOf(es, cmd).value, c.requestedAt)
    decreases |es|
  {
    var init, last := es[..|es| - 1], es[|es| - 1];
    var y := RemoteCommands.Run(INITIALLY, init);
    RemoteCommands.RunSound(INITIALLY, init);
    if cmd in y.commands {
      AskedFor(init, cmd);
      StepMoves(y, last.e, last.now, cmd);
      var k :| AskedAt(init, k, cmd, RequestOf(init, cmd).value, y.commands[cmd].requestedAt);
      assert init[..k] == es[..k];
      assert AskedAt(es, k, cmd, RequestOf(es, cmd).value, y.commands[cmd].requestedAt);
    } else {
      NewIsRequested(y, last.e, last.now, cmd);
      assert AskedAt(es, |init|, cmd, last.e.request, last.now);
    }
  }
}
