/** Connectivity across components: the socket registry notifies the coordinator, which keeps the
    stations' persisted status and moves their sessions offline and back.

    Notifications are fire-and-forget: a station's notes queue up and are handled later, in
    order. Handling one note is a single step. */
module Connectivity {
  import opened Common
  import opened Sessions
  import N = ConnectionRegistry

  datatype Link = Online | OfflineLink | UnknownLink

  datatype Station = Station(link: Link, lastConnectedAt: Option<int>, lastDisconnectedAt: Option<int>)

  datatype Plant = Plant(net: N.Net, stations: map<StationId, Station>, tables: Tables)

  datatype Event =
    | Socket(e: N.Event)
    | Deliver(to: StationId, pick: Option<SessionId>)
    | Message(from: StationId, op: Op)
    | Administer(adminOp: Op)
    | Restart

  const BARE := Plant(N.BOOTED, map[], NO_SESSIONS)

  function LinkOf(stations: map<StationId, Station>, st: StationId): Link {
    if st in stations then stations[st].link else UnknownLink
  }

  function RowOf(stations: map<StationId, Station>, st: StationId): Station {
    if st in stations then stations[st] else Station(UnknownLink, None, None)
  }

  function MarkOnline(stations: map<StationId, Station>, st: StationId, now: int): map<StationId, Station> {
    stations[st := RowOf(stations, st).(link := Online, lastConnectedAt := Some(now))]
  }

  function MarkOffline(stations: map<StationId, Station>, st: StationId, now: int): map<StationId, Station> {
    stations[st := RowOf(stations, st).(link := OfflineLink, lastDisconnectedAt := Some(now))]
  }

  /** Start-up: no connection evidence can exist yet, so ONLINE is forgotten; OFFLINE stays. */
  function BootReset(stations: map<StationId, Station>): map<StationId, Station> {
    map st | st in stations :: if stations[st].link == Online then stations[st].(link := UnknownLink) else stations[st]
  }

  // ---------------------------------------------------------------- the coordinator's two handlers

  predicate OfflineAt(s: Session, st: StationId) {
    s.station == st && s.status == Offline
  }

  predicate LiveAt(s: Session, st: StationId) {
    s.station == st && (s.status == Active || s.status == Suspended)
  }

  /** The one OFFLINE session the lookup happens to return, if there is any. */
  ghost predicate ValidPick(t: Tables, st: StationId, pick: Option<SessionId>) {
    match pick
    case Some(id) => id in t.sessions && OfflineAt(t.sessions[id], st)
    case None => forall id :: id in t.sessions ==> !OfflineAt(t.sessions[id], st)
  }

  predicate ConflictStatus(s: Status) {
    s == Pending || s == Authorized || s == Starting || s == Active || s == Suspended || s == Stopping
  }

  ghost predicate Conflicting(t: Tables, id: SessionId)
    requires id in t.sessions
  {
    exists other :: other in t.sessions && other != id
      && t.sessions[other].connector == t.sessions[id].connector && ConflictStatus(t.sessions[other].status)
  }

  /** A rejected recovery leaves the session OFFLINE. */
  ghost function Recovered(t: Tables, id: SessionId, now: int): Tables
    requires id in t.sessions
  {
    if Conflicting(t, id) || !Recoverable(t.sessions[id], now) then t else Apply(t, Move(id, Active), now)
  }

  /** Every live session of the station goes OFFLINE; nothing else changes. */
  ghost function AllOffline(t: Tables, st: StationId, now: int): Tables {
    t.(sessions := map id | id in t.sessions ::
      if LiveAt(t.sessions[id], st) then t.sessions[id].(status := Offline, updatedAt := now) else t.sessions[id])
  }

  ghost function Handle(p: Plant, st: StationId, note: N.Note, pick: Option<SessionId>, now: int): Plant
    requires ValidPick(p.tables, st, pick)
  {
    match note
    case Connected =>
      p.(stations := MarkOnline(p.stations, st, now),
         tables := if pick.Some? then Recovered(p.tables, pick.value, now) else p.tables)
    case Closed(_) =>
      p.(stations := MarkOffline(p.stations, st, now), tables := AllOffline(p.tables, st, now))
  }

  /** The station an operation's message comes from. */
  ghost predicate Concerns(t: Tables, op: Op, st: StationId) {
    match op
    case Create(input) => input.station == st
    case Stop(id, _, _, _) => id in t.sessions ==> t.sessions[id].station == st
    case Record(id, _) => id in t.sessions ==> t.sessions[id].station == st
    case _ => false
  }

  ghost function QueueOf(p: Plant, st: StationId): seq<N.Note> {
    N.NotesOf(p.net.notes, st)
  }

  /** When an event can happen: messages arrive only on registered sockets, and administrative
      operations are the terminating ones. */
  ghost predicate Enabled(p: Plant, e: Event) {
    match e
    case Socket(se) => N.Admissible(p.net, se)
    case Deliver(st, pick) => QueueOf(p, st) != [] && ValidPick(p.tables, st, pick)
    case Message(st, op) => st in p.net.connections && Concerns(p.tables, op, st)
    case Administer(op) => op.Fail? || op.Cancel?
    case Restart => true
  }

  /** An event that cannot happen changes nothing. */
  ghost function Step(p: Plant, e: Event, now: int): Plant {
    if !Enabled(p, e) then p else
    match e
    case Socket(se) => p.(net := N.Step(p.net, se, now))
    case Deliver(st, pick) =>
      var q := QueueOf(p, st);
      Handle(p.(net := p.net.(notes := p.net.notes[st := q[1..]])), st, q[0], pick, now)
    case Message(st, op) => p.(tables := Apply(p.tables, op, now))
    case Administer(op) => p.(tables := Apply(p.tables, op, now))
    case Restart => Plant(N.BOOTED, BootReset(p.stations), p.tables)
  }

  // ---------------------------------------------------------------- the cross-component invariant

  /** The status the station will have once its queued notes are handled. */
  ghost function Settled(p: Plant, st: StationId): Link {
    var q := QueueOf(p, st);
    if q == [] then LinkOf(p.stations, st)
    else if q[|q| - 1].Connected? then Online else OfflineLink
  }

  ghost predicate NoneLive(t: Tables, st: StationId) {
    forall id :: id in t.sessions ==> !LiveAt(t.sessions[id], st)
  }

  /** Registered stations settle ONLINE. Nothing that happens, a restart included, can break this. */
  ghost predicate Coherent(p: Plant) {
    && Sessions.Valid(p.tables) && N.OneLive(p.net)
    && forall st :: st in p.net.connections ==> Settled(p, st) == Online
  }

  /** A station marked OFFLINE has no live session unless its reconnection is still to be handled. */
  ghost predicate StationQuiet(p: Plant, st: StationId) {
    LinkOf(p.stations, st) == OfflineLink && N.Connected !in QueueOf(p, st) ==> NoneLive(p.tables, st)
  }

  /** With valid tables the conflict branch of recovery is dead: an OFFLINE session is its
      connector's only session that is not terminal. */
  lemma NoRecoveryConflict(t: Tables, id: SessionId, now: int)
    requires Sessions.Valid(t) && id in t.sessions && t.sessions[id].status == Offline
    ensures !Conflicting(t, id)
    ensures Recovered(t, id, now) == if Recoverable(t.sessions[id], now) then Apply(t, Move(id, Active), now) else t
  {
    forall other | other in t.sessions && other != id && t.sessions[other].connector == t.sessions[id].connector
      ensures !ConflictStatus(t.sessions[other].status)
    {
      assert !Occupies(t.sessions[other], t.sessions[id].connector);
    }
  }

  lemma AllOfflineValid(t: Tables, st: StationId, now: int)
    requires Sessions.Valid(t)
    ensures Sessions.Valid(AllOffline(t, st, now)) && NoneLive(AllOffline(t, st, now), st)
  {
    var t' := AllOffline(t, st, now);
    forall id | id in t'.sessions ensures RowWise(t'.sessions[id], t'.rows[id]) {
      assert RowWise(t.sessions[id], t.rows[id]);
    }
  }

  /** Operations brought by messages never make a session of another station live. */
  lemma OpLeavesOthers(t: Tables, op: Op, now: int, from: StationId, st: StationId)
    requires Sessions.Valid(t) && (Concerns(t, op, from) || op.Fail? || op.Cancel?) && st != from && NoneLive(t, st)
    ensures NoneLive(Apply(t, op, now), st)
  {
    forall id | id in Apply(t, op, now).sessions ensures !LiveAt(Apply(t, op, now).sessions[id], st) {
      if id in t.sessions {
        ApplyKeepsRow(t, op, now, id);
        LiveOnlyIfWas(t, op, now, id, st);
      }
    }
  }

  lemma LiveOnlyIfWas(t: Tables, op: Op, now: int, id: SessionId, st: StationId)
    requires Sessions.Valid(t) && id in t.sessions && !op.Move?
    ensures id in Apply(t, op, now).sessions
    ensures LiveAt(Apply(t, op, now).sessions[id], st) ==> LiveAt(t.sessions[id], st)
  {
    ApplyKeepsRow(t, op, now, id);
    match op
    case Create(input) => if Occupied(t, input.connector) { assert Occupant(t, input.connector) != t.next; }
    case Record(_, _) =>
    case Stop(_, _, _, _) =>
    case Fail(_, _) =>
    case Cancel(_, _) =>
  }

  lemma TerminatingKeepsNoneLive(t: Tables, op: Op, now: int, st: StationId)
    requires Sessions.Valid(t) && (op.Fail? || op.Cancel?) && NoneLive(t, st)
    ensures NoneLive(Apply(t, op, now), st)
  {
    forall id | id in Apply(t, op, now).sessions ensures !LiveAt(Apply(t, op, now).sessions[id], st) {
      LiveOnlyIfWas(t, op, now, id, st);
    }
  }

  lemma SocketCoherent(p: Plant, se: N.Event, now: int)
    requires Coherent(p) && Enabled(p, Socket(se))
    ensures Coherent(Step(p, Socket(se), now))
  {
    var p' := Step(p, Socket(se), now);
    N.StepOneLive(p.net, se, now);
    forall st | st in p'.net.connections ensures Settled(p', st) == Online {
      NotesGrow(p.net, se, now, st);
    }
  }

  /** What a socket event can append to a station's notes, and what that means for whether the
      station is still registered. */
  lemma NotesGrow(n: N.Net, se: N.Event, now: int, st: StationId)
    ensures var n' := N.Step(n, se, now);
      var q, q' := N.NotesOf(n.notes, st), N.NotesOf(n'.notes, st);
      || (q' == q && (st in n'.connections ==> st in n.connections))
      || (q' == q + [N.Connected] && st in n'.connections)
      || (exists stale :: q' == q + [N.Closed(stale)] && st !in n'.connections && st in n.connections)
  {
    if se.Sweep? && st in N.StaleStations(n.connections, now) {
      assert N.NotesOf(N.Step(n, se, now).notes, st) == N.NotesOf(n.notes, st) + [N.Closed(true)];
    }
  }

  lemma RecoveredValid(t: Tables, pick: Option<SessionId>, now: int, st: StationId)
    requires Sessions.Valid(t) && ValidPick(t, st, pick)
    ensures var t' := if pick.Some? then Recovered(t, pick.value, now) else t;
      Sessions.Valid(t') && forall other :: other != st && NoneLive(t, other) ==> NoneLive(t', other)
  {
    if pick.Some? {
      NoRecoveryConflict(t, pick.value, now);
      ApplyValid(t, Move(pick.value, Active), now);
    }
  }

  lemma DeliverTablesValid(p: Plant, st: StationId, pick: Option<SessionId>, now: int)
    requires Coherent(p) && Enabled(p, Deliver(st, pick))
    ensures Sessions.Valid(Step(p, Deliver(st, pick), now).tables)
  {
    RecoveredValid(p.tables, pick, now, st);
    AllOfflineValid(p.tables, st, now);
  }

  lemma DeliverCoherent(p: Plant, st: StationId, pick: Option<SessionId>, now: int)
    requires Coherent(p) && Enabled(p, Deliver(st, pick))
    ensures Coherent(Step(p, Deliver(st, pick), now))
  {
    var p' := Step(p, Deliver(st, pick), now);
    DeliverTablesValid(p, st, pick, now);
    forall other | other in p'.net.connections ensures Settled(p', other) == Online {
      DeliverSettles(p, st, pick, now, other);
    }
  }

  /** Handling a note does not change where any station settles. */
  lemma DeliverSettles(p: Plant, st: StationId, pick: Option<SessionId>, now: int, other: StationId)
    requires Enabled(p, Deliver(st, pick))
    ensures Settled(Step(p, Deliver(st, pick), now), other) == Settled(p, other)
  {
    var p' := Step(p, Deliver(st, pick), now);
    assert QueueOf(p', st) == QueueOf(p, st)[1..];
    assert other != st ==> QueueOf(p', other) == QueueOf(p, other);
  }

  /** Every event keeps the tables valid, one live socket per station, and registered stations
      settling ONLINE. */
  lemma {:induction false} StepCoherent(p: Plant, e: Event, now: int)
    requires Coherent(p)
    ensures Coherent(Step(p, e, now))
  {
    if !Enabled(p, e) { return; }
    match e
    case Socket(se) => SocketCoherent(p, se, now);
    case Deliver(st, pick) => DeliverCoherent(p, st, pick, now);
    case Message(_, op) => ApplyValid(p.tables, op, now);
    case Administer(op) => ApplyValid(p.tables, op, now);
    case Restart =>
  }

  // ---------------------------------------------------------------- quiet stations

  lemma SocketQuiet(p: Plant, se: N.Event, now: int, st: StationId)
    requires StationQuiet(p, st) && Enabled(p, Socket(se))
    ensures StationQuiet(Step(p, Socket(se), now), st)
  {
    NotesGrow(p.net, se, now, st);
    var q, q' := QueueOf(p, st), QueueOf(Step(p, Socket(se), now), st);
    assert q <= q';
    assert forall k :: 0 <= k < |q| ==> q[k] == q'[k];
  }

  /** After any history whatever, handling the station's next note leaves it quiet. */
  lemma NextNoteSettles(p: Plant, st: StationId, pick: Option<SessionId>, now: int)
    requires Coherent(p) && Enabled(p, Deliver(st, pick))
    ensures StationQuiet(Step(p, Deliver(st, pick), now), st)
  {
    AllOfflineValid(p.tables, st, now);
  }

  lemma OtherDeliverQuiet(p: Plant, to: StationId, pick: Option<SessionId>, now: int, st: StationId)
    requires Coherent(p) && StationQuiet(p, st) && Enabled(p, Deliver(to, pick)) && st != to
    ensures StationQuiet(Step(p, Deliver(to, pick), now), st)
  {
    var p' := Step(p, Deliver(to, pick), now);
    assert QueueOf(p', st) == QueueOf(p, st) && LinkOf(p'.stations, st) == LinkOf(p.stations, st);
    RecoveredValid(p.tables, pick, now, to);
    if NoneLive(p.tables, st) { assert NoneLive(AllOffline(p.tables, to, now), st); }
  }

  /** A message arrives only on a registered socket, and a registered station is not settled OFFLINE. */
  lemma MessageQuiet(p: Plant, from: StationId, op: Op, now: int, st: StationId)
    requires Coherent(p) && StationQuiet(p, st) && Enabled(p, Message(from, op))
    ensures StationQuiet(Step(p, Message(from, op), now), st)
  {
    if st == from {
      assert Settled(p, st) == Online;
    } else if NoneLive(p.tables, st) {
      OpLeavesOthers(p.tables, op, now, from, st);
    }
  }

  lemma AdministerQuiet(p: Plant, op: Op, now: int, st: StationId)
    requires Coherent(p) && StationQuiet(p, st) && Enabled(p, Administer(op))
    ensures StationQuiet(Step(p, Administer(op), now), st)
  {
    if NoneLive(p.tables, st) { TerminatingKeepsNoneLive(p.tables, op, now, st); }
  }

  /** The station reconnected, began or kept a charge, and the note of the reconnection is still
      waiting while its row says OFFLINE. */
  ghost predicate ReturnUnhandled(p: Plant, st: StationId) {
    N.Connected in QueueOf(p, st) && LinkOf(p.stations, st) == OfflineLink && !NoneLive(p.tables, st)
  }

  /** Exactly one thing disquiets a station: a restart that loses such a note. */
  lemma {:induction false} StepQuietIff(p: Plant, e: Event, now: int, st: StationId)
    requires Coherent(p) && StationQuiet(p, st)
    ensures StationQuiet(Step(p, e, now), st) <==> !(e.Restart? && ReturnUnhandled(p, st))
  {
    if !Enabled(p, e) { return; }
    match e
    case Socket(se) => SocketQuiet(p, se, now, st);
    case Deliver(to, pick) =>
      if to == st { NextNoteSettles(p, st, pick, now); } else { OtherDeliverQuiet(p, to, pick, now, st); }
    case Message(from, op) => MessageQuiet(p, from, op, now, st);
    case Administer(op) => AdministerQuiet(p, op, now, st);
    case Restart =>
      assert LinkOf(BootReset(p.stations), st) == OfflineLink <==> LinkOf(p.stations, st) == OfflineLink;
      assert QueueOf(Step(p, Restart, now), st) == [];
  }

  // ---------------------------------------------------------------- disconnects alternate with returns

  /** Handled in order, a station's notes never disconnect it twice without a return in between. */
  ghost predicate Alternates(p: Plant, st: StationId) {
    var q := QueueOf(p, st);
    && (q != [] && q[0].Closed? ==> LinkOf(p.stations, st) != OfflineLink)
    && forall k :: 1 <= k < |q| && q[k].Closed? ==> q[k - 1].Connected?
  }

  lemma SocketAlternates(p: Plant, se: N.Event, now: int, st: StationId)
    requires Coherent(p) && Alternates(p, st) && Enabled(p, Socket(se))
    ensures Alternates(Step(p, Socket(se), now), st)
  {
    NotesGrow(p.net, se, now, st);
    assert st in p.net.connections ==> Settled(p, st) == Online;
    var q, q' := QueueOf(p, st), QueueOf(Step(p, Socket(se), now), st);
    assert forall k :: 0 <= k < |q| ==> q'[k] == q[k];
  }

  lemma DeliverAlternates(p: Plant, to: StationId, pick: Option<SessionId>, now: int, st: StationId)
    requires Alternates(p, st) && Enabled(p, Deliver(to, pick))
    ensures Alternates(Step(p, Deliver(to, pick), now), st)
  {
    var p' := Step(p, Deliver(to, pick), now);
    assert QueueOf(p', to) == QueueOf(p, to)[1..];
    assert to != st ==> QueueOf(p', st) == QueueOf(p, st);
  }

  lemma {:induction false} StepAlternates(p: Plant, e: Event, now: int, st: StationId)
    requires Coherent(p) && Alternates(p, st)
    ensures Alternates(Step(p, e, now), st)
  {
    if !Enabled(p, e) { return; }
    match e
    case Socket(se) => SocketAlternates(p, se, now, st);
    case Deliver(to, pick) => DeliverAlternates(p, to, pick, now, st);
    case Message(_, _) =>
    case Administer(_) =>
    case Restart =>
  }

  // ---------------------------------------------------------------- over whole runs

  datatype Timed = Timed(e: Event, now: int)

  ghost function Run(es: seq<Timed>): Plant {
    if es == [] then BARE else Step(Run(es[..|es| - 1]), es[|es| - 1].e, es[|es| - 1].now)
  }

  lemma {:induction false} RunCoherent(es: seq<Timed>)
    ensures Coherent(Run(es))
    decreases |es|
  {
    if es != [] {
      RunCoherent(es[..|es| - 1]);
      StepCoherent(Run(es[..|es| - 1]), es[|es| - 1].e, es[|es| - 1].now);
    }
  }

  lemma {:induction false} RunAlternates(es: seq<Timed>, st: StationId)
    ensures Alternates(Run(es), st)
    decreases |es|
  {
    if es != [] {
      RunAlternates(es[..|es| - 1], st);
      RunCoherent(es[..|es| - 1]);
      StepAlternates(Run(es[..|es| - 1]), es[|es| - 1].e, es[|es| - 1].now, st);
    }
  }

  /** The disconnect time is only ever stamped on a genuine transition: in every run, restarts that
      lose notes included, a handled disconnect finds the station not OFFLINE. */
  lemma {:induction false} StampedOnTransition(es: seq<Timed>, st: StationId, pick: Option<SessionId>, now: int)
    requires Enabled(Run(es), Deliver(st, pick)) && QueueOf(Run(es), st)[0].Closed?
    ensures LinkOf(Run(es).stations, st) != OfflineLink
    ensures LinkOf(Step(Run(es), Deliver(st, pick), now).stations, st) == OfflineLink
  {
    RunAlternates(es, st);
  }

  /** In every reachable state, once a station's notes are handled, registered implies ONLINE. */
  lemma {:induction false} RegisteredIsOnline(es: seq<Timed>, st: StationId)
    requires QueueOf(Run(es), st) == [] && st in Run(es).net.connections
    ensures LinkOf(Run(es).stations, st) == Online
  {
    RunCoherent(es);
    assert Settled(Run(es), st) == Online;
  }

  /** In every reachable state two sessions of one connector are never both unfinished, and the
      transient statuses are never stored. */
  lemma {:induction false} SessionsExclusive(es: seq<Timed>, i: SessionId, j: SessionId)
    requires i in Run(es).tables.sessions && j in Run(es).tables.sessions && i != j
    requires Run(es).tables.sessions[i].connector == Run(es).tables.sessions[j].connector
    ensures Terminal(Run(es).tables.sessions[i].status) || Terminal(Run(es).tables.sessions[j].status)
    ensures Run(es).tables.sessions[i].status !in {Pending, Authorized, Starting, Stopping}
  {
    RunCoherent(es);
    assert RowWise(Run(es).tables.sessions[i], Run(es).tables.rows[i]);
    if !Terminal(Run(es).tables.sessions[i].status) {
      assert !Occupies(Run(es).tables.sessions[j], Run(es).tables.sessions[i].connector);
    }
  }

  /** No restart lost the note of this station's return, or one of its notes has been handled
      since. What restarts did to other stations does not matter. */
  ghost predicate Recuperated(es: seq<Timed>, st: StationId) {
    es != [] ==>
      var p, e := Run(es[..|es| - 1]), es[|es| - 1].e;
      || (e.Deliver? && e.to == st && Enabled(p, e))
      || (Recuperated(es[..|es| - 1], st) && !(e.Restart? && ReturnUnhandled(p, st)))
  }

  lemma {:induction false} RunQuiet(es: seq<Timed>, st: StationId)
    requires Recuperated(es, st)
    ensures StationQuiet(Run(es), st)
    decreases |es|
  {
    if es != [] {
      var p, last := Run(es[..|es| - 1]), es[|es| - 1];
      RunCoherent(es[..|es| - 1]);
      if last.e.Deliver? && last.e.to == st && Enabled(p, last.e) {
        NextNoteSettles(p, st, last.e.pick, last.now);
      } else {
        RunQuiet(es[..|es| - 1], st);
        StepQuietIff(p, last.e, last.now, st);
      }
    }
  }

  /** Then a station marked OFFLINE with no return waiting has only OFFLINE or terminal sessions. */
  lemma {:induction false} OfflineIsQuiet(es: seq<Timed>, st: StationId, id: SessionId)
    requires Recuperated(es, st) && N.Connected !in QueueOf(Run(es), st) && LinkOf(Run(es).stations, st) == OfflineLink
    requires id in Run(es).tables.sessions && Run(es).tables.sessions[id].station == st
    ensures Run(es).tables.sessions[id].status == Offline || Terminal(Run(es).tables.sessions[id].status)
  {
    RunQuiet(es, st);
    RunCoherent(es);
    assert RowWise(Run(es).tables.sessions[id], Run(es).tables.rows[id]);
  }

  // ---------------------------------------------------------------- forced disconnects

  /** Registered and settled ONLINE are the same thing. */
  ghost predicate Tied(p: Plant, st: StationId) {
    st in p.net.connections <==> Settled(p, st) == Online
  }

  predicate Forces(p: Plant, e: Event, st: StationId) {
    e == Socket(N.ForceDisconnect(st)) && st in p.net.connections
  }

  /** Exactly one thing unties them: a forced disconnect of a registered station. */
  lemma {:induction false} StepTiedIff(p: Plant, e: Event, now: int, st: StationId)
    requires Tied(p, st)
    ensures Tied(Step(p, e, now), st) <==> !Forces(p, e, st)
  {
    if !Enabled(p, e) { return; }
    match e
    case Socket(se) =>
      if se != N.ForceDisconnect(st) { RegistrationNoted(p.net, se, now, st); }
    case Deliver(to, pick) => DeliverSettles(p, to, pick, now, st);
    case Message(_, _) =>
    case Administer(_) =>
    case Restart => assert LinkOf(BootReset(p.stations), st) != Online;
  }

  /** The station was forced off and has neither registered again nor been through a restart. */
  ghost predicate ForcedOff(es: seq<Timed>, st: StationId) {
    es != [] &&
      var p, e := Run(es[..|es| - 1]), es[|es| - 1].e;
      || Forces(p, e, st)
      || (ForcedOff(es[..|es| - 1], st) && !e.Restart?
        && !(Enabled(p, e) && e.Socket? && e.e.Register? && e.e.station == st))
  }

  /** In every run, dirty restarts included: a station is registered exactly when it settles
      ONLINE, unless it was forced off, and then it settles ONLINE unregistered. */
  lemma {:induction false} RegisteredIffOnline(es: seq<Timed>, st: StationId)
    ensures
      if ForcedOff(es, st) then st !in Run(es).net.connections && Settled(Run(es), st) == Online
      else Tied(Run(es), st)
    decreases |es|
  {
    if es != [] {
      var p, last := Run(es[..|es| - 1]), es[|es| - 1];
      RegisteredIffOnline(es[..|es| - 1], st);
      RunCoherent(es[..|es| - 1]);
      if Tied(p, st) {
        StepTiedIff(p, last.e, last.now, st);
        if Forces(p, last.e, st) { ForcedStaysOnline(p, st, last.now); }
      } else {
        UntiedStep(p, last.e, last.now, st);
      }
    }
  }

  /** A station forced off stays as it is until it registers again or the process restarts. */
  lemma UntiedStep(p: Plant, e: Event, now: int, st: StationId)
    requires st !in p.net.connections && Settled(p, st) == Online
    ensures var p' := Step(p, e, now);
      if e.Restart? || (Enabled(p, e) && e.Socket? && e.e.Register? && e.e.station == st) then Tied(p', st)
      else st !in p'.net.connections && Settled(p', st) == Online
  {
    if !Enabled(p, e) { return; }
    match e
    case Socket(se) => NotesGrow(p.net, se, now, st);
    case Deliver(to, pick) => DeliverSettles(p, to, pick, now, st);
    case Message(_, _) =>
    case Administer(_) =>
    case Restart => assert LinkOf(BootReset(p.stations), st) != Online;
  }

  lemma RegistrationNoted(n: N.Net, se: N.Event, now: int, st: StationId)
    requires se != N.ForceDisconnect(st)
    ensures var n' := N.Step(n, se, now);
      var q, q' := N.NotesOf(n.notes, st), N.NotesOf(n'.notes, st);
      || (q' == q && (st in n'.connections <==> st in n.connections))
      || (q' == q + [N.Connected] && st in n'.connections)
      || (exists stale :: q' == q + [N.Closed(stale)] && st !in n'.connections)
  {
    NotesGrow(n, se, now, st);
  }

  /** A forced disconnect says nothing to the coordinator: the station still settles ONLINE. */
  lemma ForcedStaysOnline(p: Plant, st: StationId, now: int)
    requires Coherent(p) && st in p.net.connections
    ensures var p' := Step(p, Socket(N.ForceDisconnect(st)), now);
      st !in p'.net.connections && Settled(p', st) == Online && p'.tables == p.tables
  {
    assert Settled(p, st) == Online;
  }

  /** How a return goes unhandled: a station marked OFFLINE reconnects and starts a charge before
      its note is handled; the process restarting there leaves it OFFLINE with a live session. */
  lemma RestartWithNoteOutstanding(p: Plant, st: StationId, socket: N.Socket, connector: ConnectorId, now: int)
    requires Coherent(p) && StationQuiet(p, st) && LinkOf(p.stations, st) == OfflineLink
    requires socket !in p.net.owner && !Occupied(p.tables, connector)
    ensures var p1 := Step(p, Socket(N.Register(st, socket)), now);
      var start := Message(st, Create(CreateInput(st, connector, 0, now)));
      var p2 := Step(p1, start, now);
      && Enabled(p1, start) && StationQuiet(p2, st) && ReturnUnhandled(p2, st)
      && !StationQuiet(Step(p2, Restart, now), st)
  {
    var p1 := Step(p, Socket(N.Register(st, socket)), now);
    var start := Message(st, Create(CreateInput(st, connector, 0, now)));
    StepCoherent(p, Socket(N.Register(st, socket)), now);
    StepQuietIff(p, Socket(N.Register(st, socket)), now, st);
    var q := QueueOf(p1, st);
    assert q[|q| - 1] == N.Connected;
    StepCoherent(p1, start, now);
    StepQuietIff(p1, start, now, st);
    var p2 := Step(p1, start, now);
    assert LiveAt(p2.tables.sessions[p.tables.next], st);
    StepQuietIff(p2, Restart, now, st);
  }

  /** Every other session of the station has ended. */
  ghost predicate OnlyLive(t: Tables, st: StationId, id: SessionId) {
    forall other :: other in t.sessions && other != id ==>
      t.sessions[other].station != st || Terminal(t.sessions[other].status)
  }

  lemma OnlyOneGoesOffline(t: Tables, st: StationId, id: SessionId, now: int)
    requires id in t.sessions && LiveAt(t.sessions[id], st)
    requires OnlyLive(t, st, id)
    ensures AllOffline(t, st, now).sessions == t.sessions[id := t.sessions[id].(status := Offline, updatedAt := now)]
  {
  }

  lemma TablesRoundTrip(t: Tables, st: StationId, id: SessionId, t0: int, t1: int)
    requires Sessions.Valid(t) && id in t.sessions && LiveAt(t.sessions[id], st) && OnlyLive(t, st, id)
    requires t0 <= t1 <= t0 + OFFLINE_RECOVERY_WINDOW_MS
    ensures var away := AllOffline(t, st, t0);
      && id in away.sessions && OfflineAt(away.sessions[id], st)
      && Recovered(away, id, t1).sessions == t.sessions[id := t.sessions[id].(status := Active, updatedAt := t1)]
      && Recovered(away, id, t1).rows == t.rows
  {
    var away := AllOffline(t, st, t0);
    AllOfflineValid(t, st, t0);
    OnlyOneGoesOffline(t, st, id, t0);
    NoRecoveryConflict(away, id, t1);
    assert Recovered(away, id, t1) == Apply(away, Move(id, Active), t1);
  }

  /** A short outage with one live session: it comes back ACTIVE with the same readings. */
  lemma {:induction false} OutageRoundTrip(p: Plant, st: StationId, id: SessionId, stale: bool, t0: int, t1: int)
    requires Sessions.Valid(p.tables) && id in p.tables.sessions && LiveAt(p.tables.sessions[id], st)
    requires OnlyLive(p.tables, st, id)
    requires t0 <= t1 <= t0 + OFFLINE_RECOVERY_WINDOW_MS
    ensures var away := Handle(p, st, N.Closed(stale), None, t0);
      && ValidPick(away.tables, st, Some(id))
      && var back := Handle(away, st, N.Connected, Some(id), t1);
      && LinkOf(back.stations, st) == Online
      && back.tables.sessions == p.tables.sessions[id := p.tables.sessions[id].(status := Active, updatedAt := t1)]
      && back.tables.rows == p.tables.rows
  {
    NoneOffline(p.tables, st, id);
    TablesRoundTrip(p.tables, st, id, t0, t1);
  }

  lemma NoneOffline(t: Tables, st: StationId, id: SessionId)
    requires id in t.sessions && LiveAt(t.sessions[id], st) && OnlyLive(t, st, id)
    ensures ValidPick(t, st, None)
  {
  }
}
