/** Charging sessions: creation with supersession, the transition table, and meter telemetry.

    The tables are maps of rows, the clock is a parameter, and each read-check-write is one
    atomic step. Row ids are handed out in order, which stands for fresh identifiers. */
module Sessions {
  import opened Common

  type SessionId = nat
  type StationId = nat
  type ConnectorId = nat

  datatype Status =
    | Pending | Authorized | Starting | Active | Suspended | Offline | Stopping
    | Completed | Failed | Cancelled

  datatype Reason =
    | NormalCompletion | CableDisconnected | VehicleFull | RemoteStop | EmergencyStop | Fault
    | Timeout | PowerLoss | StationReboot | UserCancelled | NetworkFailure | Unknown

  datatype Session = Session(
    station: StationId, connector: ConnectorId, status: Status,
    meterStart: int, meterStop: Option<int>, energyWh: int,
    startedAt: int, endedAt: Option<int>, updatedAt: int, reason: Option<Reason>)

  datatype Row = Row(timestamp: int, energyWh: int)

  /** next is the id the next inserted session gets. */
  datatype Tables = Tables(sessions: map<SessionId, Session>, rows: map<SessionId, seq<Row>>, next: SessionId)

  datatype CreateInput = CreateInput(station: StationId, connector: ConnectorId, meterStart: int, startedAt: int)

  datatype Op =
    | Create(input: CreateInput)
    | Stop(stopped: SessionId, meterStop: int, stopReason: Reason, endedAt: int)
    | Fail(failed: SessionId, failReason: Reason)
    | Cancel(cancelled: SessionId, cancelReason: Reason)
    | Move(moved: SessionId, target: Status)
    | Record(sampled: SessionId, sample: Row)

  /** What the caller gets back: a session, nothing, or the raised error. */
  datatype Reply =
    | Gives(id: SessionId)
    | Dropped
    | NotFound
    | InvalidTransition(from: Status, to: Status)

  const OFFLINE_RECOVERY_WINDOW_MS := 3 * 300_000

  const NO_SESSIONS := Tables(map[], map[], 0)

  function Successors(from: Status): set<Status> {
    match from
    case Pending => {Authorized, Cancelled, Failed}
    case Authorized => {Starting, Cancelled, Failed}
    case Starting => {Active, Failed, Cancelled}
    case Active => {Stopping, Offline, Suspended, Failed, Cancelled}
    case Offline => {Active, Suspended, Failed, Stopping, Cancelled}
    case Suspended => {Active, Offline, Failed, Stopping, Cancelled}
    case Stopping => {Completed, Failed}
    case Completed => {}
    case Failed => {}
    case Cancelled => {}
  }

  predicate Terminal(s: Status) {
    s == Completed || s == Failed || s == Cancelled
  }

  predicate Occupies(s: Session, connector: ConnectorId) {
    s.connector == connector && !Terminal(s.status)
  }

  predicate Recoverable(s: Session, now: int) {
    s.status == Offline && now - s.updatedAt <= OFFLINE_RECOVERY_WINDOW_MS
  }

  // ---------------------------------------------------------------- one operation

  ghost predicate Occupied(t: Tables, connector: ConnectorId) {
    exists id :: id in t.sessions && Occupies(t.sessions[id], connector)
  }

  ghost function Occupant(t: Tables, connector: ConnectorId): SessionId
    requires Occupied(t, connector)
    ensures Occupant(t, connector) in t.sessions && Occupies(t.sessions[Occupant(t, connector)], connector)
  {
    var id :| id in t.sessions && Occupies(t.sessions[id], connector);
    id
  }

  function Ended(s: Session, status: Status, reason: Reason, endedAt: int, now: int): Session {
    s.(status := status, reason := Some(reason), endedAt := Some(endedAt), updatedAt := now)
  }

  function NewSession(input: CreateInput, now: int): Session {
    Session(input.station, input.connector, Active, input.meterStart, None, 0, input.startedAt, None, now, None)
  }

  ghost function Insert(t: Tables, s: Session): Tables {
    Tables(t.sessions[t.next := s], t.rows[t.next := []], t.next + 1)
  }

  ghost function Put(t: Tables, id: SessionId, s: Session): Tables {
    t.(sessions := t.sessions[id := s])
  }

  function Floor0(x: int): int { if x < 0 then 0 else x }

  /** The status an operation asks for. */
  function Target(op: Op): Status
    requires !op.Create? && !op.Record?
  {
    match op
    case Stop(_, _, _, _) => Stopping
    case Fail(_, _) => Failed
    case Cancel(_, _) => Cancelled
    case Move(_, target) => target
  }

  function Subject(op: Op): SessionId
    requires !op.Create?
  {
    match op
    case Stop(id, _, _, _) => id
    case Fail(id, _) => id
    case Cancel(id, _) => id
    case Move(id, _) => id
    case Record(id, _) => id
  }

  /** Move is what suspendSession, resumeSession and activateSession reach. */
  predicate Callable(op: Op) {
    op.Move? ==> op.target == Active || op.target == Suspended || op.target == Offline
  }

  ghost function Answer(t: Tables, op: Op, now: int): Reply {
    match op
    case Create(input) =>
      if Occupied(t, input.connector) && KeepsOccupant(t, input.connector, now) then Gives(Occupant(t, input.connector))
      else Gives(t.next)
    case Record(id, row) =>
      if id !in t.sessions || row.energyWh < t.sessions[id].energyWh then Dropped
      else if row.energyWh > t.sessions[id].energyWh && Terminal(t.sessions[id].status)
      then InvalidTransition(t.sessions[id].status, t.sessions[id].status)
      else Gives(id)
    case _ =>
      if Subject(op) !in t.sessions then NotFound
      else if Target(op) !in Successors(t.sessions[Subject(op)].status)
      then InvalidTransition(t.sessions[Subject(op)].status, Target(op))
      else Gives(Subject(op))
  }

  /** Cases A and B: the connector's session is kept and returned. */
  ghost predicate KeepsOccupant(t: Tables, connector: ConnectorId, now: int)
    requires Occupied(t, connector)
  {
    var s := t.sessions[Occupant(t, connector)];
    s.status != Offline || Recoverable(s, now)
  }

  ghost function Apply(t: Tables, op: Op, now: int): Tables {
    match op
    case Create(input) =>
      if Occupied(t, input.connector) then
        if KeepsOccupant(t, input.connector, now) then t
        else
          var expired := Occupant(t, input.connector);
          Insert(Put(t, expired, Ended(t.sessions[expired], Failed, NetworkFailure, now, now)), NewSession(input, now))
      else Insert(t, NewSession(input, now))
    case Record(id, row) =>
      if id !in t.sessions || row.energyWh < t.sessions[id].energyWh then t
      else
        var t' := t.(rows := t.rows[id := RowsOf(t, id) + [row]]);
        if row.energyWh > t.sessions[id].energyWh && !Terminal(t.sessions[id].status)
        then Put(t', id, t.sessions[id].(energyWh := row.energyWh, updatedAt := now))
        else t'
    case _ =>
      if !Answer(t, op, now).Gives? then t
      else
        Put(t, Subject(op), Updated(t.sessions[Subject(op)], op, now))
  }

  /** The row an accepted transition writes. */
  function Updated(s: Session, op: Op, now: int): Session {
    match op
    case Stop(_, meterStop, reason, endedAt) =>
      Ended(s, Completed, reason, endedAt, now).(meterStop := Some(meterStop),
        energyWh := Floor0(meterStop - s.meterStart))
    case Fail(_, reason) => Ended(s, Failed, reason, now, now)
    case Cancel(_, reason) => Ended(s, Cancelled, reason, now, now)
    case Move(_, target) => s.(status := target, updatedAt := now)
    case _ => s
  }

  ghost function RowsOf(t: Tables, id: SessionId): seq<Row> {
    if id in t.rows then t.rows[id] else []
  }

  // ---------------------------------------------------------------- what every operation keeps

  ghost predicate NonDecreasing(rows: seq<Row>) {
    forall k, l :: 0 <= k < l < |rows| ==> rows[k].energyWh <= rows[l].energyWh
  }

  function LastEnergy(rows: seq<Row>): int {
    if rows == [] then 0 else rows[|rows| - 1].energyWh
  }

  /** No connector has two sessions that are not terminal. */
  ghost predicate Exclusive(t: Tables) {
    forall i, j :: i in t.sessions && j in t.sessions && i != j && !Terminal(t.sessions[i].status)
      ==> !Occupies(t.sessions[j], t.sessions[i].connector)
  }

  /** Only these statuses are ever stored. */
  ghost predicate Storable(s: Status) {
    s == Active || s == Suspended || s == Offline || Terminal(s)
  }

  ghost predicate RowWise(s: Session, rows: seq<Row>) {
    && Storable(s.status)
    && (Terminal(s.status) <==> s.endedAt.Some?) && (Terminal(s.status) <==> s.reason.Some?)
    && (s.status == Completed <==> s.meterStop.Some?)
    && (s.meterStop.Some? ==> s.energyWh == Floor0(s.meterStop.value - s.meterStart))
    && (!Terminal(s.status) ==> NonDecreasing(rows) && s.energyWh == LastEnergy(rows) && s.energyWh >= 0)
  }

  ghost predicate Valid(t: Tables) {
    && (forall id :: id in t.sessions ==> id < t.next && id in t.rows)
    && Exclusive(t)
    && forall id :: id in t.sessions ==> RowWise(t.sessions[id], t.rows[id])
  }

  lemma InsertValid(t: Tables, input: CreateInput, now: int)
    requires Valid(t) && !Occupied(t, input.connector)
    ensures Valid(Insert(t, NewSession(input, now)))
  {
    assert t.next !in t.sessions;
  }

  lemma PutValid(t: Tables, id: SessionId, s: Session)
    requires Valid(t) && id in t.sessions && RowWise(s, t.rows[id])
    requires s.connector == t.sessions[id].connector && (Terminal(t.sessions[id].status) ==> Terminal(s.status))
    ensures Valid(Put(t, id, s))
  {
  }

  lemma SupersedeFrees(t: Tables, connector: ConnectorId, now: int)
    requires Valid(t) && Occupied(t, connector)
    ensures var id := Occupant(t, connector);
      var t' := Put(t, id, Ended(t.sessions[id], Failed, NetworkFailure, now, now));
      Valid(t') && !Occupied(t', connector)
  {
    var id := Occupant(t, connector);
    PutValid(t, id, Ended(t.sessions[id], Failed, NetworkFailure, now, now));
  }

  lemma RecordValid(t: Tables, id: SessionId, row: Row, now: int)
    requires Valid(t)
    ensures Valid(Apply(t, Record(id, row), now))
  {
    if id in t.sessions && row.energyWh >= t.sessions[id].energyWh {
      var t' := t.(rows := t.rows[id := t.rows[id] + [row]]);
      var s := t.sessions[id];
      if !Terminal(s.status) { assert NonDecreasing(t'.rows[id]); }
    }
  }

  /** Creation, supersession, suspension, recovery, termination and telemetry all keep the
      tables valid; in particular at most one session per connector is not terminal. */
  lemma {:induction false} ApplyValid(t: Tables, op: Op, now: int)
    requires Valid(t) && Callable(op)
    ensures Valid(Apply(t, op, now))
  {
    match op
    case Create(input) =>
      if !Occupied(t, input.connector) {
        InsertValid(t, input, now);
      } else if !KeepsOccupant(t, input.connector, now) {
        var expired := Occupant(t, input.connector);
        SupersedeFrees(t, input.connector, now);
        InsertValid(Put(t, expired, Ended(t.sessions[expired], Failed, NetworkFailure, now, now)), input, now);
      }
    case Record(id, row) => RecordValid(t, id, row, now);
    case _ =>
      if Answer(t, op, now).Gives? {
        PutValid(t, Subject(op), Apply(t, op, now).sessions[Subject(op)]);
      }
  }

  // ---------------------------------------------------------------- what never changes

  /** A row is never deleted; station, connector, meterStart and startedAt are fixed at creation;
      a terminal row is final; telemetry is append-only. */
  ghost predicate KeepsRow(t: Tables, t': Tables, id: SessionId)
    requires id in t.sessions
  {
    && id in t'.sessions
    && t'.sessions[id].station == t.sessions[id].station && t'.sessions[id].connector == t.sessions[id].connector
    && t'.sessions[id].meterStart == t.sessions[id].meterStart && t'.sessions[id].startedAt == t.sessions[id].startedAt
    && (Terminal(t.sessions[id].status) ==> t'.sessions[id] == t.sessions[id])
    && RowsOf(t, id) <= RowsOf(t', id)
  }

  ghost predicate Preserves(t: Tables, t': Tables) {
    forall id :: id in t.sessions ==> KeepsRow(t, t', id)
  }

  lemma CreateKeepsRow(t: Tables, input: CreateInput, now: int, id: SessionId)
    requires Valid(t) && id in t.sessions
    ensures KeepsRow(t, Apply(t, Create(input), now), id)
  {
    if Occupied(t, input.connector) { assert Occupant(t, input.connector) != t.next; }
  }

  lemma RecordKeepsRow(t: Tables, sampled: SessionId, row: Row, now: int, id: SessionId)
    requires Valid(t) && id in t.sessions
    ensures KeepsRow(t, Apply(t, Record(sampled, row), now), id)
  {
  }

  lemma ChangeKeepsRow(t: Tables, op: Op, now: int, id: SessionId)
    requires Valid(t) && id in t.sessions && !op.Create? && !op.Record?
    ensures KeepsRow(t, Apply(t, op, now), id)
  {
  }

  lemma ApplyKeepsRow(t: Tables, op: Op, now: int, id: SessionId)
    requires Valid(t) && id in t.sessions
    ensures KeepsRow(t, Apply(t, op, now), id)
  {
    match op
    case Create(input) => CreateKeepsRow(t, input, now, id);
    case Record(sampled, row) => RecordKeepsRow(t, sampled, row, now, id);
    case _ => ChangeKeepsRow(t, op, now, id);
  }

  lemma ApplyPreserves(t: Tables, op: Op, now: int)
    requires Valid(t)
    ensures Preserves(t, Apply(t, op, now))
  {
    forall id | id in t.sessions ensures KeepsRow(t, Apply(t, op, now), id) {
      ApplyKeepsRow(t, op, now, id);
    }
  }

  datatype Timed = Timed(op: Op, now: int)

  ghost function Run(t: Tables, ops: seq<Timed>): Tables {
    if ops == [] then t else Apply(Run(t, ops[..|ops| - 1]), ops[|ops| - 1].op, ops[|ops| - 1].now)
  }

  ghost predicate CallableAll(ops: seq<Timed>) {
    forall k :: 0 <= k < |ops| ==> Callable(ops[k].op)
  }

  /** Every run of operations from valid tables. */
  lemma {:induction false} RunKeeps(t: Tables, ops: seq<Timed>)
    requires Valid(t) && CallableAll(ops)
    ensures Valid(Run(t, ops)) && Preserves(t, Run(t, ops))
    decreases |ops|
  {
    if ops != [] {
      var init, last := ops[..|ops| - 1], ops[|ops| - 1];
      RunKeeps(t, init);
      ApplyValid(Run(t, init), last.op, last.now);
      ApplyPreserves(Run(t, init), last.op, last.now);
    }
  }

  /** While a session is not terminal its energy is the last sample and never goes down; on
      completion it is the register difference; after that nothing moves it. */
  lemma EnergyOverStep(t: Tables, op: Op, now: int, t': Tables, id: SessionId)
    requires Valid(t) && Callable(op) && t' == Apply(t, op, now) && id in t.sessions
    ensures id in t'.sessions
    ensures Terminal(t.sessions[id].status) ==> t'.sessions[id] == t.sessions[id]
    ensures !Terminal(t'.sessions[id].status) ==>
      t'.sessions[id].energyWh >= t.sessions[id].energyWh && t'.sessions[id].energyWh == LastEnergy(RowsOf(t', id))
    ensures t'.sessions[id].status == Completed ==>
      var used := t'.sessions[id].meterStop.value - t'.sessions[id].meterStart;
      t'.sessions[id].energyWh == if used > 0 then used else 0
    ensures t'.sessions[id].status == Failed || t'.sessions[id].status == Cancelled ==>
      t'.sessions[id].energyWh == t.sessions[id].energyWh
  {
    ApplyValid(t, op, now);
    ApplyKeepsRow(t, op, now, id);
    EnergyPerOp(t, op, now, id);
  }

  lemma EnergyPerOp(t: Tables, op: Op, now: int, id: SessionId)
    requires Valid(t) && Callable(op) && id in t.sessions
    ensures id in Apply(t, op, now).sessions
    ensures var s, s' := t.sessions[id], Apply(t, op, now).sessions[id];
      s'.status != Completed ==> s'.energyWh >= s.energyWh && (Terminal(s'.status) ==> s'.energyWh == s.energyWh)
  {
    match op
    case Create(input) =>
      if Occupied(t, input.connector) { assert Occupant(t, input.connector) != t.next; }
    case Record(_, _) =>
    case Stop(_, _, _, _) =>
    case Fail(_, _) =>
    case Cancel(_, _) =>
    case Move(_, _) =>
  }

  /** A start repeated later, as a retransmission is, changes nothing and gets the same answer exactly
      when the session it got the first time is not OFFLINE or is still recoverable by then. */
  lemma CreateIdempotentIff(t: Tables, input: CreateInput, now: int, later: int)
    requires Valid(t)
    ensures var t' := Apply(t, Create(input), now);
      var id := Answer(t, Create(input), now).id;
      && id in t'.sessions
      && (Apply(t', Create(input), later) == t' && Answer(t', Create(input), later) == Gives(id) <==>
            t'.sessions[id].status != Offline || Recoverable(t'.sessions[id], later))
  {
    var t' := Apply(t, Create(input), now);
    ApplyValid(t, Create(input), now);
    var id := Answer(t, Create(input), now).id;
    assert id in t'.sessions && Occupies(t'.sessions[id], input.connector);
    assert Occupant(t', input.connector) == id;
    assert Answer(t', Create(input), later) == Gives(id) <==> KeepsOccupant(t', input.connector, later);
  }

  /** What a start on a connector with an abandoned session does: the abandoned row keeps its
      readings and becomes FAILED, the new row is ACTIVE, nothing else is touched. */
  lemma SupersessionEffect(t: Tables, input: CreateInput, now: int, expired: SessionId)
    requires Valid(t) && expired in t.sessions
    requires t.sessions[expired].connector == input.connector && t.sessions[expired].status == Offline
    ensures var t' := Apply(t, Create(input), now);
      if now - t.sessions[expired].updatedAt <= OFFLINE_RECOVERY_WINDOW_MS then t' == t
      else
        && t'.sessions == t.sessions[expired := t'.sessions[expired]][t.next := NewSession(input, now)]
          && t'.next == t.next + 1
        && t'.sessions[expired].status == Failed && t'.sessions[expired].reason == Some(NetworkFailure)
        && t'.sessions[expired].energyWh == t.sessions[expired].energyWh && t'.sessions[expired].meterStop == None
        && forall other :: other in t.sessions ==> RowsOf(t', other) == RowsOf(t, other)
  {
    assert Occupies(t.sessions[expired], input.connector);
    assert Occupant(t, input.connector) == expired;
    if now - t.sessions[expired].updatedAt > OFFLINE_RECOVERY_WINDOW_MS {
      SupersedeFrees(t, input.connector, now);
      InsertValid(Put(t, expired, Ended(t.sessions[expired], Failed, NetworkFailure, now, now)), input, now);
    }
  }

  /** Samples stay in order exactly when a sample that is not dropped reaches the last one. A
      session that is not terminal always meets the condition. */
  lemma SamplesStayOrderedIff(t: Tables, id: SessionId, row: Row, now: int)
    requires Valid(t) && id in t.sessions && NonDecreasing(t.rows[id])
    ensures NonDecreasing(Apply(t, Record(id, row), now).rows[id]) <==>
      row.energyWh < t.sessions[id].energyWh || t.rows[id] == [] || row.energyWh >= LastEnergy(t.rows[id])
    ensures !Terminal(t.sessions[id].status) ==> NonDecreasing(Apply(t, Record(id, row), now).rows[id])
  {
    var rows := t.rows[id];
    var rows' := Apply(t, Record(id, row), now).rows[id];
    if row.energyWh >= t.sessions[id].energyWh && rows != [] {
      assert rows' == rows + [row];
      assert rows'[|rows| - 1].energyWh == LastEnergy(rows) && rows'[|rows|].energyWh == row.energyWh;
    }
  }

  /** A session left OFFLINE because its window had passed can become recoverable again: exactly
      when a sample above its stored energy arrives on the new connection. */
  lemma SampleReopensWindowIff(t: Tables, id: SessionId, row: Row, now: int)
    requires Valid(t) && id in t.sessions && t.sessions[id].status == Offline && !Recoverable(t.sessions[id], now)
    ensures var t' := Apply(t, Record(id, row), now);
      id in t'.sessions && (Recoverable(t'.sessions[id], now) <==> row.energyWh > t.sessions[id].energyWh)
  {
  }

  /** After completion the stored energy is a difference while samples are register readings, so
      a late sample can land out of order, and one above the difference is stored and then
      refused. */
  lemma LateSampleOutOfOrder()
    ensures var t1 := Apply(NO_SESSIONS, Create(CreateInput(1, 1, 1000, 0)), 0);
      var t2 := Apply(t1, Record(0, Row(1, 1500)), 1);
      var t3 := Apply(t2, Stop(0, 1500, NormalCompletion, 2), 2);
      var late := Record(0, Row(3, 600));
      && 0 in t3.sessions && t3.sessions[0].energyWh == 500
      && RowsOf(Apply(t3, late, 3), 0) == [Row(1, 1500), Row(3, 600)]
      && Answer(t3, late, 3) == InvalidTransition(Completed, Completed)
  {
    var t1 := Apply(NO_SESSIONS, Create(CreateInput(1, 1, 1000, 0)), 0);
    var s := NewSession(CreateInput(1, 1, 1000, 0), 0);
    assert t1 == Tables(map[0 := s], map[0 := []], 1);
    var t2 := Apply(t1, Record(0, Row(1, 1500)), 1);
    assert RowsOf(t2, 0) == [Row(1, 1500)];
  }
}
