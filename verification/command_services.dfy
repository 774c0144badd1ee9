/** The remote-command services and the two transaction handlers over the shared state. */
module CommandServices {
  import opened Common
  import opened Sessions
  import opened SessionServices
  import opened RemoteCommands

  /** The command table, the armed timers, and the continuations waiting to run. */
  class Runtime {
    const db: Database
    var commands: map<CommandId, Command>
    var next: CommandId
    var timers: set<CommandId>
    var tasks: multiset<Task>

    ghost function Contents(): System
      reads this, db
    {
      System(db.Contents(), commands, next, timers, tasks)
    }

    constructor (db: Database)
      ensures this.db == db && Contents() == System(db.Contents(), map[], 0, {}, multiset{})
    {
      this.db, commands, next, timers, tasks := db, map[], 0, {}, multiset{};
    }

    method Enqueue(task: Task)
      modifies this`tasks
      ensures Contents() == Add(old(Contents()), task)
    {
      tasks := tasks + multiset{task};
    }
  }

  class RemoteCommandService {
    const runtime: Runtime
    const lifecycle: SessionLifecycleService

    constructor (runtime: Runtime, lifecycle: SessionLifecycleService)
      ensures this.runtime == runtime && this.lifecycle == lifecycle
    {
      this.runtime, this.lifecycle := runtime, lifecycle;
    }

    ghost predicate Wired()
      reads runtime, lifecycle
    {
      lifecycle.db == runtime.db
    }

    method AssertNoConflictingCommand(station: StationId, connector: Option<ConnectorId>) returns (free: bool)
      ensures free <==> forall i :: i in runtime.commands && !Resolved(runtime.commands[i].state) ==>
        runtime.commands[i].station != station
        || (connector.Some? && runtime.commands[i].connector.Some? && runtime.commands[i].connector != connector)
    {
      free := !exists i | i in runtime.commands && !Resolved(runtime.commands[i].state) ::
        runtime.commands[i].station == station
        && (connector.Some? ==> runtime.commands[i].connector.None? || runtime.commands[i].connector == connector);
    }

    method CheckStart(r: Request, connector: Option<ConnectorId>) returns (refusal: Option<Refusal>)
      requires Wired() && Sessions.Valid(runtime.db.Contents()) && r.kind.StartCommand?
      ensures refusal == StartRefusal(runtime.db.Contents(), r, connector)
      ensures refusal.None? <==> StartAdmissible(runtime.db.Contents(), r, connector)
    {
      if connector.None? { return Some(ConnectorRequired); }
      if r.credential.None? { return Some(CredentialRequired); }
      if r.credential.value.Unusable? { return Some(CredentialUnusable); }
      if !r.available { return Some(ConnectorUnavailable); }
      var conflicting := lifecycle.FindNonTerminalSession(connector.value);
      if conflicting.Some? { return Some(ConnectorBusy); }
      if |r.credential.value.idTag| > ID_TAG_MAX { return Some(IdTagTooLong); }
      refusal := None;
    }

    /** Validation, the concurrency guard and the REQUESTED row; the rest of the request waits. */
    method RequestCommand(r: Request, now: int) returns (refusal: Option<Refusal>)
      requires Wired()
      requires RemoteCommands.Sound(runtime.Contents())
      modifies runtime
      ensures refusal == RefusalOf(old(runtime.Contents()), r, now)
      ensures runtime.Contents() == RemoteCommands.Step(old(runtime.Contents()), Ask(r), now)
      ensures RemoteCommands.Sound(runtime.Contents())
    {
      StepSound(runtime.Contents(), Ask(r), now);
      var connector := r.connector;
      if r.session.Some? {
        if r.session.value !in runtime.db.sessions || runtime.db.sessions[r.session.value].station != r.station {
          return Some(SessionMissing);
        }
        if connector.None? { connector := Some(runtime.db.sessions[r.session.value].connector); }
      }
      if r.kind.StartCommand? {
        refusal := CheckStart(r, connector);
        if refusal.Some? { return; }
      }
      if r.kind.StopCommand? {
        if r.session.None? { return Some(SessionRequired); }
        if !Stoppable(runtime.db.sessions[r.session.value].status) { return Some(NotStoppable); }
      }
      var free := AssertNoConflictingCommand(r.station, connector);
      if !free { return Some(CommandInFlight); }
      CreateRow(Command(r.station, connector, r.session, r.kind, Requested, now, None, r.registers));
      refusal := None;
    }

    method CreateRow(c: Command)
      modifies runtime
      ensures var y := old(runtime.Contents());
        runtime.Contents() == Add(PutCommand(y, y.next, c).(next := y.next + 1), Dispatch(y.next))
    {
      runtime.commands := runtime.commands[runtime.next := c];
      runtime.Enqueue(Dispatch(runtime.next));
      runtime.next := runtime.next + 1;
    }

    /** The final transition of a request carries a resolution time unless it is ACCEPTED. */
    method Finalize(cmd: CommandId, target: State, terminal: bool, now: int) returns (ok: bool)
      requires cmd in runtime.commands && (terminal <==> Resolved(target))
      modifies runtime`commands
      ensures ok == CanMove(old(runtime.Contents()), cmd, target)
      ensures runtime.Contents() == Persist(old(runtime.Contents()), cmd, target, now)
    {
      var command := runtime.commands[cmd];
      ok := target in Allowed(command.state);
      if ok {
        var updated := command.(state := target);
        if terminal { updated := updated.(resolvedAt := Some(now)); }
        runtime.commands := runtime.commands[cmd := updated];
      }
    }

    /** No connection, or a command the station's protocol does not support, is rejected unsent. */
    method ResolveConnection(cmd: CommandId, sendable: bool, now: int)
      requires RemoteCommands.Sound(runtime.Contents())
      requires TaskSound(runtime.db.Contents(), runtime.commands, Dispatch(cmd))
      modifies runtime
      ensures runtime.Contents() ==
        Perform(old(runtime.Contents()), Dispatch(cmd), Choice(sendable, NoAnswer, None, None), now)
      ensures RemoteCommands.Sound(runtime.Contents())
    {
      PerformSound(runtime.Contents(), Dispatch(cmd), Choice(sendable, NoAnswer, None, None), now);
      if sendable {
        runtime.Enqueue(AwaitAnswer(cmd));
      } else {
        var ok := Finalize(cmd, Rejected, true, now);
      }
    }

    method AnswerReceived(cmd: CommandId, outcome: Outcome, now: int)
      requires RemoteCommands.Sound(runtime.Contents())
      requires TaskSound(runtime.db.Contents(), runtime.commands, AwaitAnswer(cmd))
      modifies runtime
      ensures runtime.Contents() ==
        Perform(old(runtime.Contents()), AwaitAnswer(cmd), Choice(true, outcome, None, None), now)
      ensures RemoteCommands.Sound(runtime.Contents())
    {
      PerformSound(runtime.Contents(), AwaitAnswer(cmd), Choice(true, outcome, None, None), now);
      var ok := Finalize(cmd, Sent, false, now);
      if ok { runtime.Enqueue(Settle(cmd, outcome)); }
    }

    method SettleOutcome(cmd: CommandId, outcome: Outcome, choice: Choice, now: int)
      requires RemoteCommands.Sound(runtime.Contents())
      requires TaskSound(runtime.db.Contents(), runtime.commands, Settle(cmd, outcome))
      modifies runtime
      ensures runtime.Contents() == Perform(old(runtime.Contents()), Settle(cmd, outcome), choice, now)
      ensures RemoteCommands.Sound(runtime.Contents())
    {
      PerformSound(runtime.Contents(), Settle(cmd, outcome), choice, now);
      match outcome {
        case NoAnswer =>
          var timedOut := Finalize(cmd, TimedOut, true, now);
        case ChargerRejects =>
          var rejected := Finalize(cmd, Rejected, true, now);
        case ChargerAccepts =>
          var accepted := Finalize(cmd, Accepted, false, now);
          if accepted && runtime.commands[cmd].watched { runtime.Enqueue(RegisterAccepted(cmd)); }
      }
    }

    /** The session is linked only when the request named none. */
    method ConfirmCommand(cmd: CommandId, link: Option<SessionId>, now: int) returns (ok: bool)
      requires cmd in runtime.commands
      modifies runtime`commands
      ensures var y := old(runtime.Contents());
        && ok == CanMove(y, cmd, Confirmed)
        && runtime.Contents() == if ok then PutCommand(y, cmd, ConfirmedAs(y.commands[cmd], link, now)) else y
    {
      var named := runtime.commands[cmd].session;
      ok := Finalize(cmd, Confirmed, true, now);
      if ok && named.None? && link.Some? {
        runtime.commands := runtime.commands[cmd := runtime.commands[cmd].(session := link)];
      }
    }

    method MarkUnconfirmed(cmd: CommandId, now: int) returns (ok: bool)
      requires cmd in runtime.commands
      requires RemoteCommands.Sound(runtime.Contents())
      modifies runtime`commands
      ensures ok == CanMove(old(runtime.Contents()), cmd, Unconfirmed)
      ensures runtime.Contents() == Persist(old(runtime.Contents()), cmd, Unconfirmed, now)
      ensures RemoteCommands.Sound(runtime.Contents())
    {
      PersistSound(runtime.Contents(), cmd, Unconfirmed, now);
      ok := Finalize(cmd, Unconfirmed, true, now);
    }
  }

  class RemoteCommandConfirmationService {
    const runtime: Runtime
    const commands: RemoteCommandService

    constructor (runtime: Runtime, commands: RemoteCommandService)
      ensures this.runtime == runtime && this.commands == commands
    {
      this.runtime, this.commands := runtime, commands;
    }

    method Register(cmd: CommandId, choice: Choice, now: int)
      requires RemoteCommands.Sound(runtime.Contents())
      requires TaskSound(runtime.db.Contents(), runtime.commands, RegisterAccepted(cmd))
      modifies runtime
      ensures runtime.Contents() == Perform(old(runtime.Contents()), RegisterAccepted(cmd), choice, now)
      ensures RemoteCommands.Sound(runtime.Contents())
    {
      PerformSound(runtime.Contents(), RegisterAccepted(cmd), choice, now);
      runtime.timers := runtime.timers + {cmd};
      runtime.Enqueue(CheckNow(cmd));
    }

    method OnStartTransactionObserved(station: StationId, connector: ConnectorId, session: SessionId, now: int)
      returns (choice: Choice)
      requires RemoteCommands.Sound(runtime.Contents())
      requires TaskSound(runtime.db.Contents(), runtime.commands, ObserveStart(station, connector, session))
      modifies runtime
      ensures ValidChoice(old(runtime.Contents()), ObserveStart(station, connector, session), choice)
      ensures runtime.Contents() ==
        Perform(old(runtime.Contents()), ObserveStart(station, connector, session), choice, now)
      ensures RemoteCommands.Sound(runtime.Contents())
    {
      choice := Choice(true, NoAnswer, None, None);
      if cmd :| cmd in runtime.commands && AwaitsStart(runtime.commands[cmd], station, connector) {
        choice := choice.(command := Some(cmd));
        runtime.Enqueue(Confirm(cmd, Some(session)));
      }
      PerformSound(old(runtime.Contents()), ObserveStart(station, connector, session), choice, now);
    }

    method OnStopTransactionObserved(session: SessionId, now: int) returns (choice: Choice)
      requires RemoteCommands.Sound(runtime.Contents())
      requires TaskSound(runtime.db.Contents(), runtime.commands, ObserveStop(session))
      modifies runtime
      ensures ValidChoice(old(runtime.Contents()), ObserveStop(session), choice)
      ensures runtime.Contents() == Perform(old(runtime.Contents()), ObserveStop(session), choice, now)
      ensures RemoteCommands.Sound(runtime.Contents())
    {
      choice := Choice(true, NoAnswer, None, None);
      if cmd :| cmd in runtime.commands && AwaitsStop(runtime.commands[cmd], session) {
        choice := choice.(command := Some(cmd));
        runtime.Enqueue(Confirm(cmd, None));
      }
      PerformSound(old(runtime.Contents()), ObserveStop(session), choice, now);
    }

    method CheckImmediately(cmd: CommandId, now: int) returns (choice: Choice)
      requires RemoteCommands.Sound(runtime.Contents())
      requires TaskSound(runtime.db.Contents(), runtime.commands, CheckNow(cmd))
      modifies runtime
      ensures ValidChoice(old(runtime.Contents()), CheckNow(cmd), choice)
      ensures runtime.Contents() == Perform(old(runtime.Contents()), CheckNow(cmd), choice, now)
      ensures RemoteCommands.Sound(runtime.Contents())
    {
      var command := runtime.commands[cmd];
      choice := Choice(true, NoAnswer, None, None);
      if command.kind.StartCommand? {
        if s :| s in runtime.db.sessions && StartEvidence(command, runtime.db.sessions[s]) {
          choice := choice.(session := Some(s));
          runtime.Enqueue(Confirm(cmd, Some(s)));
        }
      } else if command.kind.StopCommand? && command.session.Some? {
        var s := command.session.value;
        if s in runtime.db.sessions && runtime.db.sessions[s].status == Completed {
          runtime.Enqueue(Confirm(cmd, None));
        }
      }
      PerformSound(old(runtime.Contents()), CheckNow(cmd), choice, now);
    }

    /** The timer is cleared first; a transition that comes too late is swallowed. */
    method ConfirmObserved(cmd: CommandId, link: Option<SessionId>, choice: Choice, now: int)
      requires commands.runtime == runtime
      requires RemoteCommands.Sound(runtime.Contents())
      requires TaskSound(runtime.db.Contents(), runtime.commands, Confirm(cmd, link))
      modifies runtime
      ensures runtime.Contents() == Perform(old(runtime.Contents()), Confirm(cmd, link), choice, now)
      ensures RemoteCommands.Sound(runtime.Contents())
    {
      PerformSound(runtime.Contents(), Confirm(cmd, link), choice, now);
      runtime.timers := runtime.timers - {cmd};
      var ok := commands.ConfirmCommand(cmd, link, now);
    }

    method TimerFired(cmd: CommandId, now: int)
      requires cmd in runtime.timers
      requires RemoteCommands.Sound(runtime.Contents())
      modifies runtime
      ensures runtime.Contents() == RemoteCommands.Step(old(runtime.Contents()), TimerFires(cmd), now)
      ensures RemoteCommands.Sound(runtime.Contents())
    {
      StepSound(runtime.Contents(), TimerFires(cmd), now);
      runtime.timers := runtime.timers - {cmd};
      runtime.Enqueue(Expire(cmd));
    }

    method ExpireCommand(cmd: CommandId, choice: Choice, now: int)
      requires commands.runtime == runtime
      requires RemoteCommands.Sound(runtime.Contents())
      requires TaskSound(runtime.db.Contents(), runtime.commands, Expire(cmd))
      modifies runtime
      ensures runtime.Contents() == Perform(old(runtime.Contents()), Expire(cmd), choice, now)
      ensures RemoteCommands.Sound(runtime.Contents())
    {
      PerformSound(runtime.Contents(), Expire(cmd), choice, now);
      if runtime.commands[cmd].state != Accepted { return; }
      var ok := commands.MarkUnconfirmed(cmd, now);
    }
  }

  lemma StopGivesIff(t: Tables, session: SessionId, stop: Op, now: int)
    requires Sessions.Valid(t) && stop.Stop? && stop.stopped == session && session in t.sessions
    requires t.sessions[session].status != Completed && t.sessions[session].status != Failed
    ensures Answer(t, stop, now).Gives? <==> t.sessions[session].status != Cancelled
    ensures StopGoesThrough(t, stop, now) <==> t.sessions[session].status != Cancelled
  {
    assert RowWise(t.sessions[session], t.rows[session]);
  }

  datatype StopReply = RejectedUnknown | Acknowledged | Raised

  class TransactionHandlers {
    const runtime: Runtime
    const lifecycle: SessionLifecycleService

    constructor (runtime: Runtime, lifecycle: SessionLifecycleService)
      ensures this.runtime == runtime && this.lifecycle == lifecycle
    {
      this.runtime, this.lifecycle := runtime, lifecycle;
    }

    /** An authorized start: the session is created or kept, then observed. */
    method HandleStart(input: CreateInput, now: int) returns (session: SessionId)
      requires lifecycle.db == runtime.db
      requires RemoteCommands.Sound(runtime.Contents())
      modifies runtime, runtime.db
      ensures runtime.Contents() == RemoteCommands.Step(old(runtime.Contents()), StartTransaction(input), now)
      ensures Gives(session) == Answer(old(runtime.db.Contents()), Create(input), now)
      ensures RemoteCommands.Sound(runtime.Contents())
    {
      StepSound(runtime.Contents(), StartTransaction(input), now);
      var r := lifecycle.CreateSession(input, now);
      session := r.id;
      runtime.Enqueue(ObserveStart(input.station, input.connector, session));
    }

    /** A stop of an unknown transaction is rejected; one of a session that has already ended is
        acknowledged again; one of a cancelled session raises. */
    method HandleStop(session: SessionId, meterStop: int, reason: Reason, endedAt: int,
                      now: int)
      returns (reply: StopReply)
      requires lifecycle.db == runtime.db
      requires RemoteCommands.Sound(runtime.Contents())
      modifies runtime, runtime.db
      ensures runtime.Contents() ==
        RemoteCommands.Step(old(runtime.Contents()), StopTransaction(session, meterStop, reason, endedAt), now)
      ensures reply ==
        if session !in old(runtime.db.sessions) then RejectedUnknown
        else if old(runtime.db.sessions)[session].status == Cancelled then Raised
        else Acknowledged
      ensures RemoteCommands.Sound(runtime.Contents())
    {
      StepSound(runtime.Contents(), StopTransaction(session, meterStop, reason, endedAt), now);
      if session !in runtime.db.sessions { return RejectedUnknown; }
      var status := runtime.db.sessions[session].status;
      if status == Completed || status == Failed { return Acknowledged; }
      StopGivesIff(runtime.db.Contents(), session, Stop(session, meterStop, reason, endedAt), now);
      var r := lifecycle.StopSession(session, meterStop, reason, endedAt, now);
      reply := if r.Gives? then Acknowledged else Raised;
      if r.Gives? { runtime.Enqueue(ObserveStop(session)); }
    }
  }
}
