/** Where a session's row comes from: the start that created it, the samples it was sent, and the
    operation that ended it. */
module SessionHistory {
  import opened Common
  import opened Sessions

  // ---------------------------------------------------------------- which operations are accepted

  /** The statuses from which the operation is accepted, among those that are ever stored. */
  predicate AcceptedFrom(s: Status, op: Op)
    requires !op.Create? && !op.Record?
  {
    match op
    case Move(_, target) => s != target && (s == Active || s == Suspended || s == Offline)
    case _ => s != Completed && s != Failed && s != Cancelled
  }

  /** On valid tables a stop, a failure and a cancellation are accepted exactly while the session has not
      ended, and a suspension, a loss and a return exactly from the other two live statuses. */
  lemma AcceptedIff(t: Tables, op: Op, now: int)
    requires Sessions.Valid(t) && Callable(op) && !op.Create? && !op.Record?
    ensures Answer(t, op, now) ==
      if Subject(op) !in t.sessions then NotFound
      else if AcceptedFrom(t.sessions[Subject(op)].status, op) then Gives(Subject(op))
      else InvalidTransition(t.sessions[Subject(op)].status, Target(op))
    ensures !Answer(t, op, now).Gives? ==> Apply(t, op, now) == t
  {
    if Subject(op) in t.sessions { assert RowWise(t.sessions[Subject(op)], t.rows[Subject(op)]); }
  }

  /** The row an ending operation leaves. */
  ghost predicate EndedBy(was: Session, s: Session, op: Op, now: int) {
    && s.station == was.station && s.connector == was.connector && s.meterStart == was.meterStart
    && s.startedAt == was.startedAt && s.updatedAt == now
    && match op
       case Stop(_, meterStop, reason, endedAt) =>
         && s.status == Completed && s.meterStop == Some(meterStop) && s.reason == Some(reason)
         && s.endedAt == Some(endedAt)
         && s.energyWh == if meterStop > was.meterStart then meterStop - was.meterStart else 0
       case Fail(_, reason) =>
         s.status == Failed && s.reason == Some(reason) && s.endedAt == Some(now) && s.energyWh == was.energyWh
       case Cancel(_, reason) =>
         s.status == Cancelled && s.reason == Some(reason) && s.endedAt == Some(now) && s.energyWh == was.energyWh
       case Create(_) =>
         s.status == Failed && s.reason == Some(NetworkFailure) && s.endedAt == Some(now) && s.energyWh == was.energyWh
       case _ => false
  }

  /** A session ends only by an accepted stop, failure or cancellation of its own, or by a start on its
      connector once it has been OFFLINE for longer than fifteen minutes. */
  ghost predicate Ends(t: Tables, op: Op, now: int, id: SessionId)
    requires id in t.sessions
  {
    var s := t.sessions[id];
    && !Terminal(s.status)
    && match op
       case Stop(stopped, _, _, _) => stopped == id
       case Fail(failed, _) => failed == id
       case Cancel(cancelled, _) => cancelled == id
       case Create(input) => input.connector == s.connector && s.status == Offline && now - s.updatedAt > 15 * 60_000
       case _ => false
  }

  lemma CreateEndsIff(t: Tables, input: CreateInput, now: int, id: SessionId)
    requires Sessions.Valid(t) && id in t.sessions
    ensures var t' := Apply(t, Create(input), now);
      && id in t'.sessions && (Terminal(t'.sessions[id].status) <==>
        Terminal(t.sessions[id].status) || Ends(t, Create(input), now, id))
      && (Ends(t, Create(input), now, id) ==> EndedBy(t.sessions[id], t'.sessions[id], Create(input), now))
  {
    if Occupied(t, input.connector) { assert Occupant(t, input.connector) != t.next; }
    if !Terminal(t.sessions[id].status) && input.connector == t.sessions[id].connector {
      assert Occupies(t.sessions[id], input.connector);
      assert Occupant(t, input.connector) == id;
    }
  }

  lemma {:induction false} EndsIff(t: Tables, op: Op, now: int, id: SessionId)
    requires Sessions.Valid(t) && Callable(op) && id in t.sessions
    ensures var t' := Apply(t, op, now);
      && id in t'.sessions && (Terminal(t'.sessions[id].status) <==>
        Terminal(t.sessions[id].status) || Ends(t, op, now, id))
      && (Ends(t, op, now, id) ==> EndedBy(t.sessions[id], t'.sessions[id], op, now))
  {
    match op
    case Create(input) => CreateEndsIff(t, input, now, id);
    case Record(_, _) =>
    case _ => AcceptedIff(t, op, now);
  }

  // ---------------------------------------------------------------- over whole runs

  ghost predicate CreatedAt(ops: seq<Sessions.Timed>, k: int, id: SessionId, s: Session) {
    && 0 <= k < |ops| && ops[k].op.Create? && Sessions.Run(NO_SESSIONS, ops[..k]).next == id
    && var input := ops[k].op.input;
       s.station == input.station && s.connector == input.connector && s.meterStart == input.meterStart
       && s.startedAt == input.startedAt
  }

  lemma NewSessionIs(t: Tables, op: Op, now: int, id: SessionId)
    requires Sessions.Valid(t) && id !in t.sessions && id in Apply(t, op, now).sessions
    ensures op.Create? && id == t.next
    ensures Apply(t, op, now).sessions[id] ==
      Session(op.input.station, op.input.connector, Active, op.input.meterStart, None, 0, op.input.startedAt, None,
        now, None)
  {
  }

  /** In every run a session's station, connector, opening reading and start time are those of the start
      message that created it, the start time being the charger's. */
  lemma {:induction false} StartedBy(ops: seq<Sessions.Timed>, id: SessionId) returns (k: int)
    requires CallableAll(ops) && id in Sessions.Run(NO_SESSIONS, ops).sessions
    ensures CreatedAt(ops, k, id, Sessions.Run(NO_SESSIONS, ops).sessions[id])
    decreases |ops|
  {
    var init, last := ops[..|ops| - 1], ops[|ops| - 1];
    var t := Sessions.Run(NO_SESSIONS, init);
    RunKeeps(NO_SESSIONS, init);
    if id in t.sessions {
      k := StartedBy(init, id);
      ApplyKeepsRow(t, last.op, last.now, id);
      assert init[..k] == ops[..k];
    } else {
      k := |init|;
      NewSessionIs(t, last.op, last.now, id);
    }
  }

  ghost predicate EndedAt(ops: seq<Sessions.Timed>, k: int, id: SessionId, s: Session) {
    && 0 <= k < |ops|
    && var t := Sessions.Run(NO_SESSIONS, ops[..k]);
       id in t.sessions && Ends(t, ops[k].op, ops[k].now, id) && EndedBy(t.sessions[id], s, ops[k].op, ops[k].now)
  }

  /** And an ended session ended by one such operation, whose reading, reason and time it carries. */
  lemma {:induction false} EndedOnce(ops: seq<Sessions.Timed>, id: SessionId) returns (k: int)
    requires CallableAll(ops) && id in Sessions.Run(NO_SESSIONS, ops).sessions
    requires Terminal(Sessions.Run(NO_SESSIONS, ops).sessions[id].status)
    ensures EndedAt(ops, k, id, Sessions.Run(NO_SESSIONS, ops).sessions[id])
    decreases |ops|
  {
    var init, last := ops[..|ops| - 1], ops[|ops| - 1];
    var t := Sessions.Run(NO_SESSIONS, init);
    RunKeeps(NO_SESSIONS, init);
    if id !in t.sessions {
      NewSessionIs(t, last.op, last.now, id);
    } else {
      EndsIff(t, last.op, last.now, id);
    }
    if Terminal(t.sessions[id].status) {
      k := EndedOnce(init, id);
      ApplyKeepsRow(t, last.op, last.now, id);
      assert init[..k] == ops[..k];
    } else {
      k := |init|;
    }
  }

  /** The samples the session was sent that were not below its energy at that moment, in order. */
  ghost function Sampled(ops: seq<Sessions.Timed>, id: SessionId): seq<Row> {
    if ops == [] then []
    else
      var init, last := ops[..|ops| - 1], ops[|ops| - 1];
      var t := Sessions.Run(NO_SESSIONS, init);
      Sampled(init, id)
      + if last.op.Record? && last.op.sampled == id && id in t.sessions
        && last.op.sample.energyWh >= t.sessions[id].energyWh
        then [last.op.sample] else []
  }

  lemma RowsAfter(t: Tables, op: Op, now: int, id: SessionId)
    requires Sessions.Valid(t) && (id !in t.sessions ==> RowsOf(t, id) == [])
    ensures RowsOf(Apply(t, op, now), id) == RowsOf(t, id)
      + if op.Record? && op.sampled == id && id in t.sessions && op.sample.energyWh >= t.sessions[id].energyWh
        then [op.sample] else []
    ensures id !in Apply(t, op, now).sessions ==> RowsOf(Apply(t, op, now), id) == []
  {
    assert t.next !in t.sessions;
  }

  /** In every run those are exactly the samples stored for it. */
  lemma {:induction false} RowsAre(ops: seq<Sessions.Timed>, id: SessionId)
    requires CallableAll(ops)
    ensures RowsOf(Sessions.Run(NO_SESSIONS, ops), id) == Sampled(ops, id)
    ensures id !in Sessions.Run(NO_SESSIONS, ops).sessions ==> Sampled(ops, id) == []
    decreases |ops|
  {
    if ops != [] {
      var init, last := ops[..|ops| - 1], ops[|ops| - 1];
      RunKeeps(NO_SESSIONS, init);
      RowsAre(init, id);
      RowsAfter(Sessions.Run(NO_SESSIONS, init), last.op, last.now, id);
    }
  }
}
