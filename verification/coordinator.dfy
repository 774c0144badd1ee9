/** The connectivity coordinator: persisted station status, offline reconciliation, recovery. */
module Coordinator {
  import opened Common
  import opened Sessions
  import opened SessionServices
  import opened Connectivity

  class StationTable {
    var stations: map<StationId, Station>

    constructor ()
      ensures stations == map[]
    {
      stations := map[];
    }
  }

  class ConnectivityCoordinator {
    const table: StationTable
    const db: Database
    const lifecycle: SessionLifecycleService

    constructor (table: StationTable, db: Database, lifecycle: SessionLifecycleService)
      ensures this.table == table && this.db == db && this.lifecycle == lifecycle
    {
      this.table, this.db, this.lifecycle := table, db, lifecycle;
    }

    ghost predicate Wired()
      reads lifecycle
    {
      lifecycle.db == db
    }

    /** Start-up reconciliation; the count is of the stations reset. */
    method OnModuleInit() returns (count: nat)
      modifies table
      ensures table.stations == BootReset(old(table.stations))
      ensures count == |set st | st in old(table.stations) && old(table.stations)[st].link == Online|
      ensures forall st :: LinkOf(table.stations, st) != Online
      ensures forall st :: LinkOf(table.stations, st) == OfflineLink <==> LinkOf(old(table.stations), st) == OfflineLink
    {
      var online := set st | st in table.stations && table.stations[st].link == Online;
      count := |online|;
      table.stations := map st | st in table.stations ::
        if st in online then table.stations[st].(link := UnknownLink) else table.stations[st];
    }

    method HandleConnectionEstablished(st: StationId, now: int) returns (pick: Option<SessionId>)
      requires Wired() && Sessions.Valid(db.Contents())
      modifies table, db
      ensures Sessions.Valid(db.Contents())
      ensures ValidPick(old(db.Contents()), st, pick)
      ensures table.stations == MarkOnline(old(table.stations), st, now)
      ensures db.Contents() == if pick.Some? then Recovered(old(db.Contents()), pick.value, now) else old(db.Contents())
    {
      if id :| id in db.sessions && OfflineAt(db.sessions[id], st) {
        pick := Some(id);
      } else {
        pick := None;
      }
      var row := if st in table.stations then table.stations[st] else Station(UnknownLink, None, None);
      table.stations := table.stations[st := row.(link := Online, lastConnectedAt := Some(now))];
      if pick.Some? { AttemptRecovery(pick.value, now); }
    }

    /** The conflict test is made although it can never succeed. */
    method AttemptRecovery(id: SessionId, now: int)
      requires Wired() && Sessions.Valid(db.Contents()) && id in db.sessions && db.sessions[id].status == Offline
      modifies db
      ensures Sessions.Valid(db.Contents()) && db.Contents() == Recovered(old(db.Contents()), id, now)
    {
      NoRecoveryConflict(db.Contents(), id, now);
      var session := db.sessions[id];
      var conflicting := exists other | other in db.sessions ::
        other != id && db.sessions[other].connector == session.connector && ConflictStatus(db.sessions[other].status);
      if !conflicting && Recoverable(session, now) {
        var r := lifecycle.Transition(id, Active, now);
      }
    }

    method HandleConnectionClosed(st: StationId, now: int)
      requires Wired() && Sessions.Valid(db.Contents())
      modifies table, db
      ensures Sessions.Valid(db.Contents())
      ensures table.stations == MarkOffline(old(table.stations), st, now)
      ensures db.Contents() == AllOffline(old(db.Contents()), st, now)
    {
      var row := if st in table.stations then table.stations[st] else Station(UnknownLink, None, None);
      table.stations := table.stations[st := row.(link := OfflineLink, lastDisconnectedAt := Some(now))];
      ReconcileSessionsOffline(st, now);
    }

    /** Moves the affected sessions one at a time, in any order. */
    method ReconcileSessionsOffline(st: StationId, now: int)
      requires Wired() && Sessions.Valid(db.Contents())
      modifies db
      ensures Sessions.Valid(db.Contents()) && db.Contents() == AllOffline(old(db.Contents()), st, now)
    {
      var affected := set id | id in db.sessions && LiveAt(db.sessions[id], st);
      MovedAll(db.Contents(), affected, st, now);
      SuspendEach(affected, st, now);
    }

    method SuspendEach(affected: set<SessionId>, st: StationId, now: int)
      requires Wired() && Sessions.Valid(db.Contents())
      requires forall id :: id in affected ==> id in db.sessions && LiveAt(db.sessions[id], st)
      modifies db
      ensures MovedSoFar(old(db.Contents()), affected, now, db.Contents())
    {
      ghost var was := db.Contents();
      var remaining := affected;
      ghost var done: set<SessionId> := {};
      MovedNone(was, now);
      while remaining != {}
        invariant done + remaining == affected && done !! remaining
        invariant MovedSoFar(was, done, now, db.Contents())
        decreases remaining
      {
        var id :| id in remaining;
        SuspendNext(id, was, done, st, now);
        remaining, done := remaining - {id}, done + {id};
      }
    }

    method SuspendNext(id: SessionId, ghost was: Tables, ghost done: set<SessionId>, st: StationId, now: int)
      requires Wired() && MovedSoFar(was, done, now, db.Contents())
      requires id in was.sessions && LiveAt(was.sessions[id], st) && id !in done
      modifies db
      ensures MovedSoFar(was, done + {id}, now, db.Contents())
    {
      MovedOne(was, done, id, st, now);
      var r := lifecycle.Transition(id, Offline, now);
    }
  }

  /** The given sessions are moved OFFLINE, the others are as they were. */
  ghost function SomeOffline(t: Tables, ids: set<SessionId>, now: int): Tables {
    t.(sessions := map id | id in t.sessions ::
      if id in ids then t.sessions[id].(status := Offline, updatedAt := now) else t.sessions[id])
  }

  ghost predicate MovedSoFar(was: Tables, done: set<SessionId>, now: int, t: Tables) {
    Sessions.Valid(t) && t == SomeOffline(was, done, now)
  }

  lemma MovedNone(t: Tables, now: int)
    ensures SomeOffline(t, {}, now) == t
  {
    assert SomeOffline(t, {}, now).sessions == t.sessions;
  }

  lemma MovedOne(t: Tables, done: set<SessionId>, id: SessionId, st: StationId, now: int)
    requires id in t.sessions && id !in done && LiveAt(t.sessions[id], st)
    ensures Apply(SomeOffline(t, done, now), Move(id, Offline), now) == SomeOffline(t, done + {id}, now)
  {
    var moved := SomeOffline(t, done, now);
    assert moved.sessions[id] == t.sessions[id];
    assert moved.sessions[id := t.sessions[id].(status := Offline, updatedAt := now)] ==
      SomeOffline(t, done + {id}, now).sessions;
  }

  lemma MovedAll(t: Tables, affected: set<SessionId>, st: StationId, now: int)
    requires affected == set id | id in t.sessions && LiveAt(t.sessions[id], st)
    ensures SomeOffline(t, affected, now) == AllOffline(t, st, now)
  {
    assert SomeOffline(t, affected, now).sessions == AllOffline(t, st, now).sessions;
  }
}
