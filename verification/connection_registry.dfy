/** The in-memory socket registry: one live socket per station, whatever the order of
    registrations, late close events, forced disconnects and sweeps.

    A station and its OCPP identity are one-to-one (the identity column is unique and a
    provisioned station is never given a second one), so one id stands for both. */
module ConnectionRegistry {
  import opened Common

  type StationId = nat
  type Socket = nat

  datatype Record = Record(socket: Socket, connectedAt: int, lastMessageAt: int)

  /** What the coordinator is told; per station, in the order it happened. */
  datatype Note = Connected | Closed(stale: bool)

  /** owner remembers every socket ever registered and the station it was registered for. */
  datatype Net = Net(connections: map<StationId, Record>, closed: set<Socket>,
                     owner: map<Socket, StationId>, notes: map<StationId, seq<Note>>)

  const STALE_THRESHOLD_MS := 5 * 60_000

  const BOOTED := Net(map[], {}, map[], map[])

  datatype Event =
    | Register(station: StationId, socket: Socket)
    | PeerCloses(gone: Socket)
    | CloseEvent(closedFor: StationId, closing: Socket)
    | Touch(heard: StationId)
    | ForceDisconnect(target: StationId)
    | Sweep

  // ---------------------------------------------------------------- one step

  ghost function NotesOf(notes: map<StationId, seq<Note>>, station: StationId): seq<Note> {
    if station in notes then notes[station] else []
  }

  ghost function Notify(notes: map<StationId, seq<Note>>, station: StationId, note: Note): map<StationId, seq<Note>> {
    notes[station := NotesOf(notes, station) + [note]]
  }

  predicate Stale(r: Record, now: int) {
    now - r.lastMessageAt > STALE_THRESHOLD_MS
  }

  ghost function StaleStations(connections: map<StationId, Record>, now: int): set<StationId> {
    set id | id in connections && Stale(connections[id], now)
  }

  ghost function SocketsOf(connections: map<StationId, Record>, stations: set<StationId>): set<Socket> {
    set id | id in stations && id in connections :: connections[id].socket
  }

  ghost function NotifyAll(notes: map<StationId, seq<Note>>, stations: set<StationId>,
                           note: Note): map<StationId, seq<Note>> {
    map id | id in notes.Keys + stations :: if id in stations then NotesOf(notes, id) + [note] else NotesOf(notes, id)
  }

  ghost function Step(n: Net, e: Event, now: int): Net {
    match e
    case Register(id, s) =>
      var replaced := if id in n.connections && n.connections[id].socket != s then {n.connections[id].socket} else {};
      Net(n.connections[id := Record(s, now, now)], n.closed + replaced, n.owner[s := id],
        Notify(n.notes, id, Connected))
    case PeerCloses(s) => n.(closed := n.closed + {s})
    case CloseEvent(id, s) =>
      if id in n.connections && n.connections[id].socket == s
      then n.(connections := n.connections - {id}, notes := Notify(n.notes, id, Closed(false)))
      else n
    case Touch(id) =>
      if id in n.connections then n.(connections := n.connections[id := n.connections[id].(lastMessageAt := now)])
      else n
    case ForceDisconnect(id) =>
      if id in n.connections
      then n.(connections := n.connections - {id}, closed := n.closed + {n.connections[id].socket})
      else n
    case Sweep =>
      var gone := StaleStations(n.connections, now);
      Net(n.connections - gone, n.closed + SocketsOf(n.connections, gone), n.owner,
        NotifyAll(n.notes, gone, Closed(true)))
  }

  /** What the transport guarantees: a socket is registered for one station only, and a close
      event is raised only for a socket that has closed. */
  ghost predicate Admissible(n: Net, e: Event) {
    match e
    case Register(id, s) => s in n.owner ==> n.owner[s] == id
    case CloseEvent(id, s) => s in n.closed
    case _ => true
  }

  // ---------------------------------------------------------------- one live socket per station

  /** Every socket ever registered is closed, except the one on file for its station. */
  ghost predicate OneLive(n: Net) {
    && (forall id :: id in n.connections ==>
          n.connections[id].socket in n.owner && n.owner[n.connections[id].socket] == id)
    && (forall s :: s in n.owner && s !in n.closed ==>
          n.owner[s] in n.connections && n.connections[n.owner[s]].socket == s)
  }

  lemma StepOneLive(n: Net, e: Event, now: int)
    requires OneLive(n) && Admissible(n, e)
    ensures OneLive(Step(n, e, now))
  {
    if e.Sweep? {
      var gone := StaleStations(n.connections, now);
      forall s | s in n.owner && s !in Step(n, e, now).closed
        ensures n.owner[s] !in gone
      {
        assert n.owner[s] in gone ==> s in SocketsOf(n.connections, gone);
      }
    }
  }

  datatype Timed = Timed(e: Event, now: int)

  ghost function Run(es: seq<Timed>): Net {
    if es == [] then BOOTED else Step(Run(es[..|es| - 1]), es[|es| - 1].e, es[|es| - 1].now)
  }

  ghost predicate AdmissibleRun(es: seq<Timed>) {
    es != [] ==> AdmissibleRun(es[..|es| - 1]) && Admissible(Run(es[..|es| - 1]), es[|es| - 1].e)
  }

  lemma {:induction false} RunOneLive(es: seq<Timed>)
    requires AdmissibleRun(es)
    ensures OneLive(Run(es))
    decreases |es|
  {
    if es != [] {
      RunOneLive(es[..|es| - 1]);
      StepOneLive(Run(es[..|es| - 1]), es[|es| - 1].e, es[|es| - 1].now);
    }
  }

  /** Two unclosed sockets ever registered for the same station are the same socket. */
  lemma AtMostOneUnclosed(es: seq<Timed>, s: Socket, t: Socket)
    requires AdmissibleRun(es)
    requires s in Run(es).owner && t in Run(es).owner && Run(es).owner[s] == Run(es).owner[t]
    requires s !in Run(es).closed && t !in Run(es).closed
    ensures s == t
  {
    RunOneLive(es);
  }

  ghost predicate OnFile(n: Net, id: StationId, s: Socket) {
    id in n.connections && n.connections[id].socket == s
  }

  /** Once a socket is no longer on file only registering it again brings it back. */
  lemma OffFileStays(n: Net, e: Event, now: int, id: StationId, s: Socket)
    requires !OnFile(n, id, s) && e != Register(id, s)
    ensures !OnFile(Step(n, e, now), id, s)
  {
  }

  /** However late it arrives: after a socket has been replaced, evicted or forced off, and
      whatever happens in between, its close event changes nothing at all. */
  lemma {:induction false} LateCloseIsHarmless(es: seq<Timed>, n: nat, id: StationId, s: Socket, now: int)
    requires n <= |es| && !OnFile(Run(es[..n]), id, s)
    requires forall k :: n <= k < |es| ==> es[k].e != Register(id, s)
    ensures Step(Run(es), CloseEvent(id, s), now) == Run(es)
  {
    StillOffFile(es, n, id, s);
  }

  lemma {:induction false} StillOffFile(es: seq<Timed>, n: nat, id: StationId, s: Socket)
    requires n <= |es| && !OnFile(Run(es[..n]), id, s)
    requires forall k :: n <= k < |es| ==> es[k].e != Register(id, s)
    ensures !OnFile(Run(es), id, s)
    decreases |es|
  {
    if n == |es| {
      assert es[..n] == es;
    } else {
      assert es[..|es| - 1][..n] == es[..n];
      StillOffFile(es[..|es| - 1], n, id, s);
      OffFileStays(Run(es[..|es| - 1]), es[|es| - 1].e, es[|es| - 1].now, id, s);
    }
  }

  /** When the station last registered or sent a message. */
  ghost function LastHeard(es: seq<Timed>, id: StationId): Option<int> {
    if es == [] then None
    else
      var last := es[|es| - 1];
      if (last.e.Register? && last.e.station == id) || last.e == Touch(id) then Some(last.now)
      else LastHeard(es[..|es| - 1], id)
  }

  lemma {:induction false} HeardIs(es: seq<Timed>, id: StationId)
    requires id in Run(es).connections
    ensures LastHeard(es, id) == Some(Run(es).connections[id].lastMessageAt)
    decreases |es|
  {
    var last := es[|es| - 1];
    if !(last.e.Register? && last.e.station == id) && last.e != Touch(id) { HeardIs(es[..|es| - 1], id); }
  }

  /** After any run a sweep removes exactly the stations on file that have neither registered nor sent
      anything for longer than the threshold; it reports each once and leaves none of their sockets
      open; no other station is touched. */
  lemma {:induction false} SweepIsExact(es: seq<Timed>, id: StationId, now: int)
    requires AdmissibleRun(es)
    ensures var n, n' := Run(es), Step(Run(es), Sweep, now);
      && (id in n.connections ==> LastHeard(es, id).Some?)
      && var silent := id in n.connections && now - LastHeard(es, id).value > STALE_THRESHOLD_MS;
      && (id in n'.connections <==> id in n.connections && !silent)
      && (id in n'.connections ==> n'.connections[id] == n.connections[id])
      && (silent ==> forall s :: s in n'.owner && n'.owner[s] == id ==> s in n'.closed)
      && NotesOf(n'.notes, id) == NotesOf(n.notes, id) + (if silent then [Closed(true)] else [])
  {
    RunOneLive(es);
    if id in Run(es).connections { HeardIs(es, id); }
    StepOneLive(Run(es), Sweep, now);
  }

  // ---------------------------------------------------------------- who is on file, and why

  /** The station has been silent for longer than five minutes. */
  ghost predicate SilentOn(es: seq<Timed>, now: int, id: StationId) {
    LastHeard(es, id).Some? && now - LastHeard(es, id).value > 5 * 60_000
  }

  ghost predicate SilentAt(es: seq<Timed>, j: int, id: StationId)
    requires 0 <= j < |es|
  {
    SilentOn(es[..j], es[j].now, id)
  }

  /** The event takes the station's socket off file, or puts one on file in its place. */
  ghost predicate EndsAt(es: seq<Timed>, j: int, id: StationId, s: Socket)
    requires 0 <= j < |es|
  {
    || es[j].e == CloseEvent(id, s) || es[j].e == ForceDisconnect(id) || (es[j].e.Sweep? && SilentAt(es, j, id))
    || (es[j].e.Register? && es[j].e.station == id)
  }

  ghost predicate OnFileSince(es: seq<Timed>, k: int, id: StationId, s: Socket) {
    && 0 <= k < |es| && es[k].e == Register(id, s)
    && forall j :: k < j < |es| ==> !EndsAt(es, j, id, s)
  }

  lemma EndsAtPrefix(es: seq<Timed>, j: int, id: StationId, s: Socket)
    requires 0 <= j < |es| - 1
    ensures EndsAt(es, j, id, s) <==> EndsAt(es[..|es| - 1], j, id, s)
  {
    assert es[..|es| - 1][..j] == es[..j];
  }

  lemma OnFileSinceExtends(es: seq<Timed>, k: int, id: StationId, s: Socket)
    requires es != [] && 0 <= k < |es| - 1
    ensures OnFileSince(es, k, id, s) <==>
      OnFileSince(es[..|es| - 1], k, id, s) && !EndsAt(es, |es| - 1, id, s)
  {
    var init := es[..|es| - 1];
    forall j | k < j < |init| ensures EndsAt(es, j, id, s) <==> EndsAt(init, j, id, s) {
      EndsAtPrefix(es, j, id, s);
    }
    if OnFileSince(init, k, id, s) && !EndsAt(es, |init|, id, s) {
      forall j | k < j < |es| ensures !EndsAt(es, j, id, s) {
        if j < |init| { assert !EndsAt(init, j, id, s); }
      }
    }
  }

  lemma OnFileStep(es: seq<Timed>, id: StationId, s: Socket)
    requires es != []
    ensures var init, last := es[..|es| - 1], es[|es| - 1];
      OnFile(Run(es), id, s) <==>
        last.e == Register(id, s) || (OnFile(Run(init), id, s) && !EndsAt(es, |es| - 1, id, s))
  {
    if id in Run(es[..|es| - 1]).connections { HeardIs(es[..|es| - 1], id); }
  }

  /** In every run: a station's socket is on file exactly when it was registered and since then there
      was no close event of it, no forced disconnect, no sweep that found the station silent and no
      other registration. */
  lemma {:induction false} OnFileIff(es: seq<Timed>, id: StationId, s: Socket)
    ensures OnFile(Run(es), id, s) <==> exists k :: OnFileSince(es, k, id, s)
    decreases |es|
  {
    if es != [] {
      var init := es[..|es| - 1];
      OnFileIff(init, id, s);
      OnFileStep(es, id, s);
      forall k | 0 <= k < |init|
        ensures OnFileSince(es, k, id, s) <==> OnFileSince(init, k, id, s) && !EndsAt(es, |init|, id, s)
      {
        OnFileSinceExtends(es, k, id, s);
      }
      assert OnFileSince(es, |init|, id, s) <==> es[|init|].e == Register(id, s);
    }
  }

  /** What the coordinator is told of the station next: of a registration, of the close event of the
      socket on file, and of an eviction. */
  ghost function ToldOf(before: seq<Timed>, next: Timed, id: StationId): seq<Note> {
    match next.e
    case Register(station, _) => if station == id then [Connected] else []
    case CloseEvent(station, s) =>
      if station == id && exists k :: OnFileSince(before, k, id, s) then [Closed(false)] else []
    case Sweep =>
      if SilentOn(before, next.now, id) && exists k, s :: OnFileSince(before, k, id, s) then [Closed(true)] else []
    case _ => []
  }

  ghost function Told(es: seq<Timed>, id: StationId): seq<Note> {
    if es == [] then [] else Told(es[..|es| - 1], id) + ToldOf(es[..|es| - 1], es[|es| - 1], id)
  }

  lemma RegisteredSince(es: seq<Timed>, id: StationId)
    ensures id in Run(es).connections <==> exists k, s :: OnFileSince(es, k, id, s)
  {
    if id in Run(es).connections {
      OnFileIff(es, id, Run(es).connections[id].socket);
    }
    forall k, s | OnFileSince(es, k, id, s) ensures id in Run(es).connections {
      OnFileIff(es, id, s);
    }
  }

  lemma SweepTold(es: seq<Timed>, now: int, id: StationId)
    ensures NotesOf(Step(Run(es), Sweep, now).notes, id) == NotesOf(Run(es).notes, id)
      + if SilentOn(es, now, id) && exists k, s :: OnFileSince(es, k, id, s) then [Closed(true)] else []
  {
    RegisteredSince(es, id);
    if id in Run(es).connections { HeardIs(es, id); }
  }

  lemma CloseTold(es: seq<Timed>, now: int, station: StationId, s: Socket, id: StationId)
    ensures NotesOf(Step(Run(es), CloseEvent(station, s), now).notes, id) == NotesOf(Run(es).notes, id)
      + if station == id && exists k :: OnFileSince(es, k, id, s) then [Closed(false)] else []
  {
    OnFileIff(es, id, s);
  }

  lemma ToldStep(es: seq<Timed>, next: Timed, id: StationId)
    ensures NotesOf(Step(Run(es), next.e, next.now).notes, id) == NotesOf(Run(es).notes, id) + ToldOf(es, next, id)
  {
    match next.e
    case CloseEvent(station, s) => CloseTold(es, next.now, station, s, id);
    case Sweep => SweepTold(es, next.now, id);
    case _ =>
  }

  /** In every run the coordinator is told exactly that, in that order: one close note for the close
      event of the socket on file, none for any other. */
  lemma {:induction false} NotesAre(es: seq<Timed>, id: StationId)
    ensures NotesOf(Run(es).notes, id) == Told(es, id)
    decreases |es|
  {
    if es != [] {
      NotesAre(es[..|es| - 1], id);
      ToldStep(es[..|es| - 1], es[|es| - 1], id);
    }
  }

  /** The peer closed the socket, or the registry did: on replacing, evicting or forcing it off. */
  ghost predicate ShutAt(es: seq<Timed>, j: int, s: Socket) {
    && 0 <= j < |es|
    && match es[j].e
       case PeerCloses(gone) => gone == s
       case Register(id, other) => other != s && OnFile(Run(es[..j]), id, s)
       case ForceDisconnect(id) => OnFile(Run(es[..j]), id, s)
       case Sweep => exists id :: OnFile(Run(es[..j]), id, s) && SilentAt(es, j, id)
       case _ => false
  }

  lemma ShutStep(es: seq<Timed>, s: Socket)
    requires es != []
    ensures s in Run(es).closed <==> s in Run(es[..|es| - 1]).closed || ShutAt(es, |es| - 1, s)
  {
    var init, last := es[..|es| - 1], es[|es| - 1];
    var n := Run(init);
    if last.e.Sweep? {
      forall id | id in n.connections ensures SilentAt(es, |es| - 1, id) <==> Stale(n.connections[id], last.now) {
        HeardIs(init, id);
      }
      assert s in SocketsOf(n.connections, StaleStations(n.connections, last.now)) <==>
        exists id :: id in n.connections && Stale(n.connections[id], last.now) && n.connections[id].socket == s;
    }
  }

  /** In every run a socket is closed exactly when one of those happened to it. */
  lemma {:induction false} ClosedIff(es: seq<Timed>, s: Socket)
    ensures s in Run(es).closed <==> exists j :: ShutAt(es, j, s)
    decreases |es|
  {
    if es != [] {
      var init := es[..|es| - 1];
      ClosedIff(init, s);
      ShutStep(es, s);
      forall j | 0 <= j < |init| ensures ShutAt(es, j, s) <==> ShutAt(init, j, s) {
        assert init[..j] == es[..j];
      }
    }
  }

  // ---------------------------------------------------------------- the registry

  /** Part way through a sweep: the stations in gone have been evicted, the rest is untouched. */
  ghost predicate SweptSoFar(was: Net, now: Net, gone: set<StationId>) {
    && gone <= was.connections.Keys && now.owner == was.owner
    && now.connections == was.connections - gone
    && now.closed == was.closed + SocketsOf(was.connections, gone)
    && now.notes == NotifyAll(was.notes, gone, Closed(true))
  }

  lemma NotifyOne(notes: map<StationId, seq<Note>>, gone: set<StationId>, id: StationId)
    requires id !in gone
    ensures Notify(NotifyAll(notes, gone, Closed(true)), id, Closed(true)) ==
      NotifyAll(notes, gone + {id}, Closed(true))
  {
  }

  lemma EvictOne(was: Net, now: Net, gone: set<StationId>, id: StationId)
    requires SweptSoFar(was, now, gone) && id in now.connections
    ensures SweptSoFar(was, Net(now.connections - {id}, now.closed + {now.connections[id].socket}, now.owner,
                                Notify(now.notes, id, Closed(true))), gone + {id})
  {
    NotifyOne(was.notes, gone, id);
    assert SocketsOf(was.connections, gone + {id}) == SocketsOf(was.connections, gone) + {now.connections[id].socket};
    assert now.connections - {id} == was.connections - (gone + {id});
  }

  class ConnectionRegistryService {
    var connections: map<StationId, Record>
    var closed: set<Socket>
    ghost var owner: map<Socket, StationId>
    var notes: map<StationId, seq<Note>>

    ghost function State(): Net
      reads this
    {
      Net(connections, closed, owner, notes)
    }

    constructor ()
      ensures State() == BOOTED
    {
      connections, closed, owner, notes := map[], {}, map[], map[];
    }

    method NotifyCoordinator(station: StationId, note: Note)
      modifies this`notes
      ensures notes == Notify(old(notes), station, note)
    {
      notes := notes[station := (if station in notes then notes[station] else []) + [note]];
    }

    method RegisterSocket(station: StationId, socket: Socket, now: int)
      modifies this
      ensures State() == Step(old(State()), Register(station, socket), now)
    {
      if station in connections && connections[station].socket != socket {
        closed := closed + {connections[station].socket};
      }
      connections := connections[station := Record(socket, now, now)];
      owner := owner[socket := station];
      NotifyCoordinator(station, Connected);
    }

    method TouchStation(station: StationId, now: int)
      modifies this
      ensures State() == Step(old(State()), Touch(station), now)
    {
      if station in connections {
        connections := connections[station := connections[station].(lastMessageAt := now)];
      }
    }

    method Unregister(station: StationId, socket: Socket, now: int)
      modifies this
      ensures State() == Step(old(State()), CloseEvent(station, socket), now)
    {
      if station in connections && connections[station].socket == socket {
        connections := connections - {station};
        NotifyCoordinator(station, Closed(false));
      }
    }

    method Disconnect(station: StationId, now: int)
      modifies this
      ensures State() == Step(old(State()), ForceDisconnect(station), now)
    {
      if station in connections {
        closed := closed + {connections[station].socket};
        connections := connections - {station};
      }
    }

    /** Closes one stale record's socket, deletes the record and reports it. */
    method Evict(id: StationId, ghost was: Net, ghost gone: set<StationId>)
      requires id in connections && SweptSoFar(was, State(), gone)
      modifies this
      ensures SweptSoFar(was, State(), gone + {id})
    {
      EvictOne(was, State(), gone, id);
      closed := closed + {connections[id].socket};
      connections := connections - {id};
      NotifyCoordinator(id, Closed(true));
    }

    /** Visits the records in any order, deleting the stale ones on the way. */
    method SweepStale(now: int)
      modifies this
      ensures State() == Step(old(State()), Sweep, now)
    {
      ghost var was := State();
      var unvisited := connections.Keys;
      ghost var gone: set<StationId> := {};
      assert was.notes == NotifyAll(was.notes, {}, Closed(true));
      while unvisited != {}
        invariant unvisited <= was.connections.Keys && gone !! unvisited && SweptSoFar(was, State(), gone)
        invariant forall id ::
          id in was.connections && id !in unvisited ==> (id in gone <==> Stale(was.connections[id], now))
        decreases unvisited
      {
        var id :| id in unvisited;
        unvisited := unvisited - {id};
        if Stale(connections[id], now) {
          Evict(id, was, gone);
          gone := gone + {id};
        }
      }
      assert gone == StaleStations(was.connections, now);
    }
  }
}
