/** Whether a confirmed start is linked to its own charge or to one that ended before it was asked for. */
module CommandLinks {
  import opened Common
  import opened Sessions
  import opened RemoteCommands
  import opened CommandOutcomes
  import opened CommandRaces

  /** What was asked for: the command, its target, and the id the next session got at that moment. */
  datatype Wanted = Wanted(cmd: CommandId, station: StationId, connector: ConnectorId, born: SessionId)

  /** Whatever the start is linked to began after it was asked for. */
  ghost predicate LinkedNew(y: System, cmd: CommandId, born: SessionId) {
    cmd in y.commands && (y.commands[cmd].session.Some? ==> y.commands[cmd].session.value >= born)
  }

  /** The earlier charges of the connector have all ended. */
  ghost predicate EarlierEnded(t: Tables, a: Wanted) {
    a.born <= t.next
    && forall s :: s in t.sessions && s < a.born && t.sessions[s].connector == a.connector ==>
      Terminal(t.sessions[s].status)
  }

  ghost predicate OwnCommand(y: System, a: Wanted) {
    && LinkedNew(y, a.cmd, a.born) && y.commands[a.cmd].kind.StartCommand?
    && y.commands[a.cmd].station == a.station && y.commands[a.cmd].connector == Some(a.connector)
  }

  /** What is waiting to confirm the start is about later charges. */
  ghost predicate NewsOnly(tasks: multiset<Task>, a: Wanted) {
    && (forall s: SessionId :: ObserveStart(a.station, a.connector, s) in tasks ==> s >= a.born)
    && (forall s: SessionId :: Confirm(a.cmd, Some(s)) in tasks ==> s >= a.born)
  }

  ghost predicate Fresh(y: System, a: Wanted) {
    EarlierEnded(y.tables, a) && OwnCommand(y, a) && NewsOnly(y.tasks, a)
  }

  // ---------------------------------------------------------------- every step keeps the link new

  lemma OpKeepsEnded(t: Tables, op: Op, now: int, a: Wanted)
    requires Sessions.Valid(t) && EarlierEnded(t, a)
    ensures EarlierEnded(Apply(t, op, now), a)
  {
    var t' := Apply(t, op, now);
    forall s | s in t'.sessions && s < a.born && t'.sessions[s].connector == a.connector
      ensures Terminal(t'.sessions[s].status)
    {
      EarlierWasThere(t, op, now, s);
      ApplyKeepsRow(t, op, now, s);
    }
    NextGrows(t, op, now);
  }

  lemma EarlierWasThere(t: Tables, op: Op, now: int, s: SessionId)
    requires Sessions.Valid(t) && s in Apply(t, op, now).sessions && s < t.next
    ensures s in t.sessions
  {
  }

  lemma NextGrows(t: Tables, op: Op, now: int)
    ensures t.next <= Apply(t, op, now).next
  {
  }

  /** A start message on the connector is answered with a later charge. */
  lemma AnsweredWithNew(t: Tables, input: CreateInput, now: int, a: Wanted)
    requires Sessions.Valid(t) && EarlierEnded(t, a) && input.connector == a.connector
    ensures Answer(t, Create(input), now).id >= a.born
  {
  }

  lemma MessageKeepsFresh(y: System, e: Event, now: int, a: Wanted)
    requires RemoteCommands.Sound(y) && Fresh(y, a) && RemoteCommands.Enabled(y, e)
    requires e.StartTransaction? || e.StopTransaction? || e.SessionChange?
    ensures Fresh(RemoteCommands.Step(y, e, now), a)
  {
    match e
    case StartTransaction(input) =>
      OpKeepsEnded(y.tables, Create(input), now, a);
      if input.connector == a.connector { AnsweredWithNew(y.tables, input, now, a); }
    case StopTransaction(session, meterStop, reason, endedAt) =>
      OpKeepsEnded(y.tables, Stop(session, meterStop, reason, endedAt), now, a);
    case SessionChange(op) => OpKeepsEnded(y.tables, op, now, a);
  }

  /** No task queues an observation, and a confirmation with a link comes from a check or an observation. */
  lemma LinkFrom(y: System, task: Task, choice: Choice, now: int, cmd: CommandId, s: SessionId)
    requires Confirm(cmd, Some(s)) in Perform(Without(y, task), task, choice, now).tasks
    requires Confirm(cmd, Some(s)) !in y.tasks
    ensures
      || (task == CheckNow(cmd) && cmd in y.commands && y.commands[cmd].kind.StartCommand? && choice.session == Some(s))
      || (task.ObserveStart? && task.session == s && choice.command == Some(cmd))
  {
    assert Confirm(cmd, Some(s)) !in Without(y, task).tasks;
  }

  lemma NoTaskObservesStart(y: System, task: Task, choice: Choice, now: int, other: Task)
    requires other.ObserveStart? && other in Perform(Without(y, task), task, choice, now).tasks
    ensures other in y.tasks
  {
    assert other in Without(y, task).tasks ==> other in y.tasks;
  }

  /** A lookup for the start finds only a later charge. */
  lemma FoundIsNew(y: System, task: Task, choice: Choice, now: int, a: Wanted, s: SessionId)
    requires Fresh(y, a) && task in y.tasks && ValidChoice(y, task, choice)
    requires Confirm(a.cmd, Some(s)) in Perform(Without(y, task), task, choice, now).tasks
    ensures s >= a.born
  {
    if Confirm(a.cmd, Some(s)) !in y.tasks {
      LinkFrom(y, task, choice, now, a.cmd, s);
      assert task.ObserveStart? ==> AwaitsStart(y.commands[a.cmd], task.station, task.connector);
    }
  }

  lemma PerformNews(y: System, task: Task, choice: Choice, now: int, a: Wanted)
    requires Fresh(y, a) && task in y.tasks && ValidChoice(y, task, choice)
    ensures NewsOnly(Perform(Without(y, task), task, choice, now).tasks, a)
  {
    var y' := Perform(Without(y, task), task, choice, now);
    forall s: SessionId | ObserveStart(a.station, a.connector, s) in y'.tasks ensures s >= a.born {
      NoTaskObservesStart(y, task, choice, now, ObserveStart(a.station, a.connector, s));
    }
    forall s: SessionId | Confirm(a.cmd, Some(s)) in y'.tasks ensures s >= a.born {
      FoundIsNew(y, task, choice, now, a, s);
    }
  }

  /** Only a confirmation links. */
  lemma PerformLinks(y: System, task: Task, choice: Choice, now: int, a: Wanted)
    requires Fresh(y, a) && task in y.tasks
    ensures var y' := Perform(Without(y, task), task, choice, now);
      LinkedNew(y', a.cmd, a.born) && y'.tables == y.tables
  {
    if task.Confirm? {
      assert task.cmd == a.cmd && task.link.Some? ==> task.link.value >= a.born;
    } else {
      NotConfirmed(Without(y, task), task, choice, now, a.cmd);
    }
  }

  lemma StepFresh(y: System, e: Event, now: int, a: Wanted)
    requires RemoteCommands.Sound(y) && Fresh(y, a)
    ensures Fresh(RemoteCommands.Step(y, e, now), a)
  {
    if !RemoteCommands.Enabled(y, e) { return; }
    StepMoves(y, e, now, a.cmd);
    if e.Continue? {
      PerformNews(y, e.task, e.choice, now, a);
      PerformLinks(y, e.task, e.choice, now, a);
    } else if e.Ask? {
      AskKeeps(y, e.request, now, a.cmd);
    } else if e.StartTransaction? || e.StopTransaction? || e.SessionChange? {
      MessageKeepsFresh(y, e, now, a);
    }
  }

  lemma {:induction false} RunFresh(y: System, es: seq<RemoteCommands.Timed>, a: Wanted)
    requires RemoteCommands.Sound(y) && Fresh(y, a)
    ensures Fresh(RemoteCommands.Run(y, es), a)
    decreases |es|
  {
    if es != [] {
      RunFresh(y, es[..|es| - 1], a);
      RemoteCommands.RunSound(y, es[..|es| - 1]);
      StepFresh(RemoteCommands.Run(y, es[..|es| - 1]), es[|es| - 1].e, es[|es| - 1].now, a);
    }
  }

  // ---------------------------------------------------------------- a start that is asked for

  /** The operator's start: it names a connector and no session, and was not refused. */
  ghost predicate Started(y: System, r: Request, now: int) {
    r.kind.StartCommand? && r.session.None? && r.connector.Some? && RefusalOf(y, r, now) == None
  }

  ghost function WantedOf(y: System, r: Request): Wanted
    requires r.connector.Some?
  {
    Wanted(y.next, r.station, r.connector.value, y.tables.next)
  }

  /** An observation of an earlier charge of the connector has not run yet. */
  ghost predicate ObservationLeft(y: System, r: Request)
    requires r.connector.Some?
  {
    exists s: SessionId :: ObserveStart(r.station, r.connector.value, s) in y.tasks
  }

  lemma AskedFresh(y: System, r: Request, now: int)
    requires RemoteCommands.Sound(y) && Started(y, r, now) && !ObservationLeft(y, r)
    ensures Fresh(RemoteCommands.Step(y, Ask(r), now), WantedOf(y, r))
  {
    AdmittedIff(y, r, now);
    assert forall task :: task in y.tasks ==> TaskSound(y.tables, y.commands, task);
  }

  /** The observation that was left confirms the start with the charge it was about. */
  lemma OldIsLinked(y: System, cmd: CommandId, task: Task, now: int) returns (es: seq<RemoteCommands.Timed>)
    requires cmd in y.commands && task.ObserveStart? && task in y.tasks && y.commands[cmd].session.None?
    requires AwaitsStart(y.commands[cmd], task.station, task.connector)
    ensures cmd in RemoteCommands.Run(y, es).commands
    ensures RemoteCommands.Run(y, es).commands[cmd].session == Some(task.session)
  {
    var found := Continue(task, Observing(cmd));
    var confirmed := Continue(Confirm(cmd, Some(task.session)), ANY_CHOICE);
    RunThen(y, [], found, now);
    es := [] + [RemoteCommands.Timed.Timed(found, now)];
    RunThen(y, es, confirmed, now);
    es := es + [RemoteCommands.Timed.Timed(confirmed, now)];
  }

  lemma AcceptedThenLinked(y: System, cmd: CommandId, task: Task, now: int) returns (es: seq<RemoteCommands.Timed>)
    requires cmd in y.commands && task.ObserveStart? && task in y.tasks && Acceptable(y, cmd)
    requires y.commands[cmd].kind.StartCommand? && y.commands[cmd].session.None?
    requires y.commands[cmd].station == task.station && y.commands[cmd].connector == Some(task.connector)
    ensures cmd in RemoteCommands.Run(y, es).commands
    ensures RemoteCommands.Run(y, es).commands[cmd].session == Some(task.session)
  {
    var a := Accept(y, cmd, now);
    var b := OldIsLinked(RemoteCommands.Run(y, a), cmd, task, now);
    RunSplit(y, a, b);
    es := a + b;
  }

  /** A confirmed start is linked to a charge that began after it was asked for, whatever follows,
      restarts and further requests included, exactly when no observation of an earlier charge of
      its station and connector was still waiting when it was asked for. */
  lemma {:induction false} LinkedNewIff(y: System, r: Request, now: int)
    requires RemoteCommands.Sound(y) && Started(y, r, now)
    ensures var y1 := RemoteCommands.Step(y, Ask(r), now);
      (forall es :: LinkedNew(RemoteCommands.Run(y1, es), y.next, y.tables.next)) <==> !ObservationLeft(y, r)
  {
    var y1 := RemoteCommands.Step(y, Ask(r), now);
    if ObservationLeft(y, r) {
      var es := LinkedToEnded(y, r, now);
      assert !LinkedNew(RemoteCommands.Run(y1, es), y.next, y.tables.next);
    } else {
      AskedFresh(y, r, now);
      StepSound(y, Ask(r), now);
      forall es ensures LinkedNew(RemoteCommands.Run(y1, es), y.next, y.tables.next) {
        RunFresh(y1, es, WantedOf(y, r));
      }
    }
  }

  /** Otherwise it can be linked to a charge that had ended before it was asked for. */
  lemma LinkedToEnded(y: System, r: Request, now: int) returns (es: seq<RemoteCommands.Timed>)
    requires RemoteCommands.Sound(y) && Started(y, r, now) && ObservationLeft(y, r)
    ensures var z := RemoteCommands.Run(RemoteCommands.Step(y, Ask(r), now), es);
      && y.next in z.commands && z.commands[y.next].session.Some?
      && var s := z.commands[y.next].session.value;
      s in y.tables.sessions && s < y.tables.next && Terminal(y.tables.sessions[s].status)
  {
    var s: SessionId :| ObserveStart(r.station, r.connector.value, s) in y.tasks;
    AdmittedIff(y, r, now);
    assert TaskSound(y.tables, y.commands, ObserveStart(r.station, r.connector.value, s));
    es := AcceptedThenLinked(RemoteCommands.Step(y, Ask(r), now), y.next,
      ObserveStart(r.station, r.connector.value, s), now);
  }
}
