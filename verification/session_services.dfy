/** The session services over the shared tables. */
module SessionServices {
  import opened Common
  import opened Sessions

  /** The session and meter tables. */
  class Database {
    var sessions: map<SessionId, Session>
    var rows: map<SessionId, seq<Row>>
    var next: SessionId

    ghost function Contents(): Tables
      reads this
    {
      Tables(sessions, rows, next)
    }

    constructor ()
      ensures Contents() == NO_SESSIONS && Valid(Contents())
    {
      sessions, rows, next := map[], map[], 0;
    }
  }

  class SessionLifecycleService {
    const db: Database

    constructor (db: Database)
      ensures this.db == db
    {
      this.db := db;
    }

    /** The connector's session that is not terminal, if it has one. */
    method FindNonTerminalSession(connector: ConnectorId) returns (found: Option<SessionId>)
      requires Valid(db.Contents())
      ensures
        if Occupied(db.Contents(), connector) then found == Some(Occupant(db.Contents(), connector)) else found == None
    {
      if id :| id in db.sessions && Occupies(db.sessions[id], connector) {
        found := Some(id);
      } else {
        found := None;
      }
    }

    /** Whether the connector's session is kept and returned: it is not OFFLINE, or still recoverable. */
    method MayKeep(connector: ConnectorId, found: Option<SessionId>, now: int) returns (keep: bool)
      requires
        if Occupied(db.Contents(), connector) then found == Some(Occupant(db.Contents(), connector)) else found == None
      ensures keep <==> Occupied(db.Contents(), connector) && KeepsOccupant(db.Contents(), connector, now)
    {
      keep := found.Some? && (db.sessions[found.value].status != Offline || Recoverable(db.sessions[found.value], now));
    }

    /** A plain read answers the common case; only a possible write enters the transaction. */
    method CreateSession(input: CreateInput, now: int) returns (r: Reply)
      requires Valid(db.Contents())
      modifies db
      ensures Valid(db.Contents())
      ensures db.Contents() == Apply(old(db.Contents()), Create(input), now)
      ensures r == Answer(old(db.Contents()), Create(input), now)
    {
      var precheck := FindNonTerminalSession(input.connector);
      var keep := MayKeep(input.connector, precheck, now);
      if keep {
        r := Gives(precheck.value);
      } else {
        r := CreateInTransaction(input, now);
      }
    }

    /** The transaction decides again on what it reads, so it is right whatever happened since
        the plain read. */
    method CreateInTransaction(input: CreateInput, now: int) returns (r: Reply)
      requires Valid(db.Contents())
      modifies db
      ensures Valid(db.Contents())
      ensures db.Contents() == Apply(old(db.Contents()), Create(input), now)
      ensures r == Answer(old(db.Contents()), Create(input), now)
    {
      ApplyValid(db.Contents(), Create(input), now);
      var existing := FindNonTerminalSession(input.connector);
      var keep := MayKeep(input.connector, existing, now);
      if keep { return Gives(existing.value); }
      if existing.Some? { Supersede(input.connector, existing.value, now); }
      r := InsertSession(input, now);
    }

    /** Fails the abandoned session, which frees the connector. */
    method Supersede(connector: ConnectorId, expired: SessionId, now: int)
      requires Valid(db.Contents()) && Occupied(db.Contents(), connector)
      requires expired == Occupant(db.Contents(), connector)
      requires !KeepsOccupant(db.Contents(), connector, now)
      modifies db
      ensures Valid(db.Contents()) && !Occupied(db.Contents(), connector)
      ensures db.Contents() == Put(old(db.Contents()), expired,
        Ended(old(db.Contents()).sessions[expired], Failed, NetworkFailure, now, now))
    {
      SupersedeFrees(db.Contents(), connector, now);
      var failed := FailSession(expired, NetworkFailure, now);
    }

    method InsertSession(input: CreateInput, now: int) returns (r: Reply)
      modifies db
      ensures r == Gives(old(db.next)) && db.Contents() == Insert(old(db.Contents()), NewSession(input, now))
    {
      r := Gives(db.next);
      db.sessions := db.sessions[db.next := NewSession(input, now)];
      db.rows := db.rows[db.next := []];
      db.next := db.next + 1;
    }

    method StopSession(id: SessionId, meterStop: int, reason: Reason, endedAt: int, now: int) returns (r: Reply)
      requires Valid(db.Contents())
      modifies db
      ensures Valid(db.Contents())
      ensures db.Contents() == Apply(old(db.Contents()), Stop(id, meterStop, reason, endedAt), now)
      ensures r == Answer(old(db.Contents()), Stop(id, meterStop, reason, endedAt), now)
    {
      ApplyValid(db.Contents(), Stop(id, meterStop, reason, endedAt), now);
      if id !in db.sessions { return NotFound; }
      var session := db.sessions[id];
      if Stopping !in Successors(session.status) { return InvalidTransition(session.status, Stopping); }
      var energy := meterStop - session.meterStart;
      if energy < 0 { energy := 0; }
      db.sessions := db.sessions[id := session.(status := Completed, meterStop := Some(meterStop), energyWh := energy,
                                                reason := Some(reason), endedAt := Some(endedAt), updatedAt := now)];
      r := Gives(id);
    }

    method FailSession(id: SessionId, reason: Reason, now: int) returns (r: Reply)
      requires Valid(db.Contents())
      modifies db
      ensures Valid(db.Contents())
      ensures db.Contents() == Apply(old(db.Contents()), Fail(id, reason), now)
      ensures r == Answer(old(db.Contents()), Fail(id, reason), now)
    {
      ApplyValid(db.Contents(), Fail(id, reason), now);
      r := TransitionToTerminal(id, Failed, reason, now);
    }

    method CancelSession(id: SessionId, reason: Reason, now: int) returns (r: Reply)
      requires Valid(db.Contents())
      modifies db
      ensures Valid(db.Contents())
      ensures db.Contents() == Apply(old(db.Contents()), Cancel(id, reason), now)
      ensures r == Answer(old(db.Contents()), Cancel(id, reason), now)
    {
      ApplyValid(db.Contents(), Cancel(id, reason), now);
      r := TransitionToTerminal(id, Cancelled, reason, now);
    }

    method TransitionToTerminal(id: SessionId, target: Status, reason: Reason, now: int) returns (r: Reply)
      modifies db
      ensures db.rows == old(db.rows) && db.next == old(db.next)
      ensures id !in old(db.sessions) ==> r == NotFound && db.sessions == old(db.sessions)
      ensures id in old(db.sessions) && target !in Successors(old(db.sessions)[id].status) ==>
        r == InvalidTransition(old(db.sessions)[id].status, target) && db.sessions == old(db.sessions)
      ensures id in old(db.sessions) && target in Successors(old(db.sessions)[id].status) ==>
        r == Gives(id) && db.sessions == old(db.sessions)[id := Ended(old(db.sessions)[id], target, reason, now, now)]
    {
      if id !in db.sessions { return NotFound; }
      var session := db.sessions[id];
      if target !in Successors(session.status) { return InvalidTransition(session.status, target); }
      db.sessions := db.sessions[id := session.(status := target, reason := Some(reason), endedAt := Some(now),
        updatedAt := now)];
      r := Gives(id);
    }

    method Transition(id: SessionId, target: Status, now: int) returns (r: Reply)
      requires Valid(db.Contents()) && Callable(Move(id, target))
      modifies db
      ensures Valid(db.Contents())
      ensures db.Contents() == Apply(old(db.Contents()), Move(id, target), now)
      ensures r == Answer(old(db.Contents()), Move(id, target), now)
    {
      ApplyValid(db.Contents(), Move(id, target), now);
      if id !in db.sessions { return NotFound; }
      var session := db.sessions[id];
      if target !in Successors(session.status) { return InvalidTransition(session.status, target); }
      db.sessions := db.sessions[id := session.(status := target, updatedAt := now)];
      r := Gives(id);
    }

    method UpdateEnergy(id: SessionId, energyWh: int, now: int) returns (r: Reply)
      modifies db
      ensures db.rows == old(db.rows) && db.next == old(db.next)
      ensures id !in old(db.sessions) ==> r == NotFound && db.sessions == old(db.sessions)
      ensures id in old(db.sessions) && Terminal(old(db.sessions)[id].status) ==>
        r == InvalidTransition(old(db.sessions)[id].status, old(db.sessions)[id].status)
          && db.sessions == old(db.sessions)
      ensures id in old(db.sessions) && !Terminal(old(db.sessions)[id].status) ==>
        r == Gives(id) && db.sessions ==
          old(db.sessions)[id := old(db.sessions)[id].(energyWh := energyWh, updatedAt := now)]
    {
      if id !in db.sessions { return NotFound; }
      var session := db.sessions[id];
      if Terminal(session.status) { return InvalidTransition(session.status, session.status); }
      db.sessions := db.sessions[id := session.(energyWh := energyWh, updatedAt := now)];
      r := Gives(id);
    }
  }

  class MeterValuesService {
    const db: Database
    const lifecycle: SessionLifecycleService

    constructor (db: Database, lifecycle: SessionLifecycleService)
      ensures this.db == db && this.lifecycle == lifecycle
    {
      this.db, this.lifecycle := db, lifecycle;
    }

    /** The row is appended before the session's energy is updated. */
    method RecordSample(id: SessionId, row: Row, now: int) returns (r: Reply)
      requires lifecycle.db == db && Valid(db.Contents())
      modifies db
      ensures Valid(db.Contents())
      ensures db.Contents() == Apply(old(db.Contents()), Record(id, row), now)
      ensures r == Answer(old(db.Contents()), Record(id, row), now)
    {
      RecordValid(db.Contents(), id, row, now);
      if id !in db.sessions { return Dropped; }
      var session := db.sessions[id];
      if row.energyWh < session.energyWh { return Dropped; }
      db.rows := db.rows[id := db.rows[id] + [row]];
      r := Gives(id);
      if row.energyWh > session.energyWh {
        r := lifecycle.UpdateEnergy(id, row.energyWh, now);
      }
    }
  }
}
