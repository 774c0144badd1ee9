/** What a station's stored row says of its past: the status and the two times are those of the
    connection notes handled, whatever else happened. */
module StationStatus {
  import opened Common
  import opened Sessions
  import N = ConnectionRegistry
  import C = Connectivity

  /** The event hands the station's next note, a connection or a disconnect, to the coordinator. */
  ghost predicate Hands(p: C.Plant, e: C.Event, st: StationId, connected: bool) {
    e.Deliver? && e.to == st && C.Enabled(p, e) && C.QueueOf(p, st)[0].Connected? == connected
  }

  ghost predicate HandledAt(es: seq<C.Timed>, k: int, st: StationId, connected: bool) {
    0 <= k < |es| && Hands(C.Run(es[..k]), es[k].e, st, connected)
  }

  /** When a connection (or a disconnect) of the station was last handled. */
  ghost function LastHandled(es: seq<C.Timed>, st: StationId, connected: bool): Option<int> {
    if es == [] then None
    else if Hands(C.Run(es[..|es| - 1]), es[|es| - 1].e, st, connected) then Some(es[|es| - 1].now)
    else LastHandled(es[..|es| - 1], st, connected)
  }

  ghost predicate OnlineSince(es: seq<C.Timed>, k: int, st: StationId) {
    HandledAt(es, k, st, true) && forall j :: k < j < |es| ==> !es[j].e.Restart? && !HandledAt(es, j, st, false)
  }

  ghost predicate OfflineSince(es: seq<C.Timed>, k: int, st: StationId) {
    HandledAt(es, k, st, false) && forall j :: k < j < |es| ==> !HandledAt(es, j, st, true)
  }

  // ---------------------------------------------------------------- one event

  lemma HandsRow(p: C.Plant, st: StationId, pick: Option<SessionId>, now: int, connected: bool)
    requires Hands(p, C.Deliver(st, pick), st, connected)
    ensures var row, row' := C.RowOf(p.stations, st), C.RowOf(C.Step(p, C.Deliver(st, pick), now).stations, st);
      row' == if connected then C.Station(C.Online, Some(now), row.lastDisconnectedAt)
              else C.Station(C.OfflineLink, row.lastConnectedAt, Some(now))
  {
  }

  /** Only a note handed over and a restart change a station's row, and a restart only forgets ONLINE. */
  lemma OtherRow(p: C.Plant, e: C.Event, now: int, st: StationId)
    requires !Hands(p, e, st, true) && !Hands(p, e, st, false)
    ensures var row, row' := C.RowOf(p.stations, st), C.RowOf(C.Step(p, e, now).stations, st);
      row' == if e.Restart? && row.link == C.Online then row.(link := C.UnknownLink) else row
  {
  }

  lemma NextRow(p: C.Plant, e: C.Event, now: int, st: StationId)
    ensures var row, row' := C.RowOf(p.stations, st), C.RowOf(C.Step(p, e, now).stations, st);
      && row'.lastConnectedAt == (if Hands(p, e, st, true) then Some(now) else row.lastConnectedAt)
      && row'.lastDisconnectedAt == (if Hands(p, e, st, false) then Some(now) else row.lastDisconnectedAt)
      && (row'.link == C.Online <==>
        Hands(p, e, st, true) || (row.link == C.Online && !e.Restart? && !Hands(p, e, st, false)))
      && (row'.link == C.OfflineLink <==>
        Hands(p, e, st, false) || (row.link == C.OfflineLink && !Hands(p, e, st, true)))
  {
    if Hands(p, e, st, true) {
      HandsRow(p, st, e.pick, now, true);
    } else if Hands(p, e, st, false) {
      HandsRow(p, st, e.pick, now, false);
    } else {
      OtherRow(p, e, now, st);
    }
  }

  lemma HandledBefore(es: seq<C.Timed>, k: int, st: StationId, connected: bool)
    requires es != [] && 0 <= k < |es| - 1
    ensures HandledAt(es, k, st, connected) <==> HandledAt(es[..|es| - 1], k, st, connected)
  {
    assert es[..|es| - 1][..k] == es[..k];
  }

  // ---------------------------------------------------------------- over whole runs

  /** In every run the two stored times are those of the last connection and the last disconnect
      handled, and missing exactly when there was none. */
  lemma {:induction false} StampsAre(es: seq<C.Timed>, st: StationId)
    ensures C.RowOf(C.Run(es).stations, st).lastConnectedAt == LastHandled(es, st, true)
    ensures C.RowOf(C.Run(es).stations, st).lastDisconnectedAt == LastHandled(es, st, false)
    decreases |es|
  {
    if es != [] {
      StampsAre(es[..|es| - 1], st);
      NextRow(C.Run(es[..|es| - 1]), es[|es| - 1].e, es[|es| - 1].now, st);
    }
  }

  lemma OnlineSinceStep(es: seq<C.Timed>, k: int, st: StationId)
    requires es != [] && 0 <= k < |es| - 1
    ensures var init, last := es[..|es| - 1], es[|es| - 1];
      OnlineSince(es, k, st) <==> OnlineSince(init, k, st) && !last.e.Restart? && !Hands(C.Run(init), last.e, st, false)
  {
    var init := es[..|es| - 1];
    forall j | 0 <= j < |init| ensures HandledAt(es, j, st, true) == HandledAt(init, j, st, true)
      && HandledAt(es, j, st, false) == HandledAt(init, j, st, false) && es[j] == init[j]
    {
      HandledBefore(es, j, st, true);
      HandledBefore(es, j, st, false);
    }
    assert HandledAt(es, |init|, st, false) <==> Hands(C.Run(init), es[|init|].e, st, false);
  }

  lemma OfflineSinceStep(es: seq<C.Timed>, k: int, st: StationId)
    requires es != [] && 0 <= k < |es| - 1
    ensures var init, last := es[..|es| - 1], es[|es| - 1];
      OfflineSince(es, k, st) <==> OfflineSince(init, k, st) && !Hands(C.Run(init), last.e, st, true)
  {
    var init := es[..|es| - 1];
    forall j | 0 <= j < |init| ensures HandledAt(es, j, st, true) == HandledAt(init, j, st, true)
      && HandledAt(es, j, st, false) == HandledAt(init, j, st, false)
    {
      HandledBefore(es, j, st, true);
      HandledBefore(es, j, st, false);
    }
    assert HandledAt(es, |init|, st, true) <==> Hands(C.Run(init), es[|init|].e, st, true);
  }

  /** In every run a station is ONLINE exactly when a connection was handled and since then neither a
      disconnect nor a restart. */
  lemma {:induction false} OnlineIff(es: seq<C.Timed>, st: StationId)
    ensures C.LinkOf(C.Run(es).stations, st) == C.Online <==> exists k :: OnlineSince(es, k, st)
    decreases |es|
  {
    if es != [] {
      var init, last := es[..|es| - 1], es[|es| - 1];
      OnlineIff(init, st);
      NextRow(C.Run(init), last.e, last.now, st);
      forall k | 0 <= k < |init|
        ensures OnlineSince(es, k, st) <==>
          OnlineSince(init, k, st) && !last.e.Restart? && !Hands(C.Run(init), last.e, st, false)
      {
        OnlineSinceStep(es, k, st);
      }
      assert OnlineSince(es, |init|, st) <==> Hands(C.Run(init), last.e, st, true);
    }
  }

  /** And OFFLINE exactly when a disconnect was handled and no connection since, restarts or not. */
  lemma {:induction false} OfflineIff(es: seq<C.Timed>, st: StationId)
    ensures C.LinkOf(C.Run(es).stations, st) == C.OfflineLink <==> exists k :: OfflineSince(es, k, st)
    decreases |es|
  {
    if es != [] {
      var init, last := es[..|es| - 1], es[|es| - 1];
      OfflineIff(init, st);
      NextRow(C.Run(init), last.e, last.now, st);
      forall k | 0 <= k < |init|
        ensures OfflineSince(es, k, st) <==> OfflineSince(init, k, st) && !Hands(C.Run(init), last.e, st, true)
      {
        OfflineSinceStep(es, k, st);
      }
      assert OfflineSince(es, |init|, st) <==> Hands(C.Run(init), last.e, st, false);
    }
  }

  /** The close event of the socket on file, and a sweep that finds the station silent, queue its
      disconnect: it is off file and settles OFFLINE. */
  lemma LossSettlesOffline(p: C.Plant, e: N.Event, now: int, st: StationId, s: N.Socket)
    requires N.OnFile(p.net, st, s) && C.Enabled(p, C.Socket(e))
    requires e == N.CloseEvent(st, s) || (e == N.Sweep && now - p.net.connections[st].lastMessageAt > 5 * 60_000)
    ensures var p' := C.Step(p, C.Socket(e), now);
      && st !in p'.net.connections && C.Settled(p', st) == C.OfflineLink
      && C.QueueOf(p', st) == C.QueueOf(p, st) + [N.Closed(e.Sweep?)]
  {
  }

  // ---------------------------------------------------------------- sessions lost and resumed

  /** A handled reconnection that picks the OFFLINE session, last written at most fifteen minutes ago. */
  ghost predicate Resumes(p: C.Plant, e: C.Event, now: int, id: SessionId) {
    && id in p.tables.sessions && p.tables.sessions[id].status == Offline
    && Hands(p, e, p.tables.sessions[id].station, true) && e.pick == Some(id)
    && now - p.tables.sessions[id].updatedAt <= 15 * 60_000
  }

  ghost predicate Loses(p: C.Plant, e: C.Event, id: SessionId) {
    id in p.tables.sessions && Hands(p, e, p.tables.sessions[id].station, false)
  }

  /** What an event leaves of an unfinished session: OFFLINE or not, at the same station. */
  ghost predicate FollowsStatus(p: C.Plant, e: C.Event, now: int, id: SessionId) {
    var t := C.Step(p, e, now).tables;
    && (id in p.tables.sessions ==> id in t.sessions && t.sessions[id].station == p.tables.sessions[id].station)
    && (id in p.tables.sessions && Terminal(p.tables.sessions[id].status) ==> Terminal(t.sessions[id].status))
    && (id in t.sessions && !Terminal(t.sessions[id].status) ==>
         (t.sessions[id].status == Offline <==>
           id in p.tables.sessions
           && (Loses(p, e, id) || (p.tables.sessions[id].status == Offline && !Resumes(p, e, now, id)))))
  }

  lemma OpStatus(t: Tables, op: Op, now: int, id: SessionId)
    requires Sessions.Valid(t) && !op.Move? && id in Apply(t, op, now).sessions
    requires !Terminal(Apply(t, op, now).sessions[id].status)
    ensures Apply(t, op, now).sessions[id].status == Offline <==> id in t.sessions && t.sessions[id].status == Offline
  {
    ApplyValid(t, op, now);
  }

  lemma MessageFollows(p: C.Plant, e: C.Event, now: int, id: SessionId)
    requires C.Coherent(p) && C.Enabled(p, e) && (e.Message? || e.Administer?)
    ensures FollowsStatus(p, e, now, id)
  {
    var op := if e.Message? then e.op else e.adminOp;
    if id in p.tables.sessions { ApplyKeepsRow(p.tables, op, now, id); }
    var t := C.Step(p, e, now).tables;
    if id in t.sessions && !Terminal(t.sessions[id].status) { OpStatus(p.tables, op, now, id); }
  }

  lemma LostFollows(p: C.Plant, st: StationId, pick: Option<SessionId>, now: int, id: SessionId)
    requires C.Coherent(p) && Hands(p, C.Deliver(st, pick), st, false)
    ensures FollowsStatus(p, C.Deliver(st, pick), now, id)
  {
    if id in p.tables.sessions { assert RowWise(p.tables.sessions[id], p.tables.rows[id]); }
  }

  lemma BackFollows(p: C.Plant, st: StationId, pick: Option<SessionId>, now: int, id: SessionId)
    requires C.Coherent(p) && Hands(p, C.Deliver(st, pick), st, true)
    ensures FollowsStatus(p, C.Deliver(st, pick), now, id)
  {
    if pick.Some? {
      C.NoRecoveryConflict(p.tables, pick.value, now);
      assert Active in Successors(Offline);
    }
  }

  /** No event makes a session OFFLINE or brings it back in any other way. */
  lemma {:induction false} StatusFollows(p: C.Plant, e: C.Event, now: int, id: SessionId)
    requires C.Coherent(p)
    ensures FollowsStatus(p, e, now, id)
  {
    if !C.Enabled(p, e) { return; }
    match e
    case Socket(_) =>
    case Deliver(st, pick) =>
      if C.QueueOf(p, st)[0].Connected? {
        BackFollows(p, st, pick, now, id);
      } else {
        LostFollows(p, st, pick, now, id);
      }
    case Message(_, _) => MessageFollows(p, e, now, id);
    case Administer(_) => MessageFollows(p, e, now, id);
    case Restart =>
  }

  ghost predicate ResumedAt(es: seq<C.Timed>, j: int, id: SessionId) {
    0 <= j < |es| && Resumes(C.Run(es[..j]), es[j].e, es[j].now, id)
  }

  /** The session was on file when a disconnect of its station was handled, and was not resumed since. */
  ghost predicate LostSince(es: seq<C.Timed>, k: int, id: SessionId) {
    && 0 <= k < |es| && Loses(C.Run(es[..k]), es[k].e, id)
    && forall j :: k < j < |es| ==> !ResumedAt(es, j, id)
  }

  lemma LostSinceStep(es: seq<C.Timed>, k: int, id: SessionId)
    requires es != [] && 0 <= k < |es| - 1
    ensures var init, last := es[..|es| - 1], es[|es| - 1];
      LostSince(es, k, id) <==> LostSince(init, k, id) && !Resumes(C.Run(init), last.e, last.now, id)
  {
    var init := es[..|es| - 1];
    assert init[..k] == es[..k];
    forall j | 0 <= j < |init| ensures ResumedAt(es, j, id) == ResumedAt(init, j, id) {
      assert init[..j] == es[..j];
    }
    assert ResumedAt(es, |init|, id) <==> Resumes(C.Run(init), es[|init|].e, es[|init|].now, id);
  }

  lemma LostIsOnFile(es: seq<C.Timed>, k: int, id: SessionId)
    requires LostSince(es, k, id)
    ensures id in C.Run(es).tables.sessions
    decreases |es|
  {
    var init, last := es[..|es| - 1], es[|es| - 1];
    C.RunCoherent(init);
    StatusFollows(C.Run(init), last.e, last.now, id);
    if k < |init| {
      LostSinceStep(es, k, id);
      LostIsOnFile(init, k, id);
    }
  }

  lemma LostSinceIff(es: seq<C.Timed>, id: SessionId)
    requires es != []
    ensures var init, last := es[..|es| - 1], es[|es| - 1];
      (exists k :: LostSince(es, k, id)) <==>
        Loses(C.Run(init), last.e, id)
        || ((exists k :: LostSince(init, k, id)) && !Resumes(C.Run(init), last.e, last.now, id))
  {
    var init, last := es[..|es| - 1], es[|es| - 1];
    forall k | 0 <= k < |init|
      ensures LostSince(es, k, id) <==> LostSince(init, k, id) && !Resumes(C.Run(init), last.e, last.now, id)
    {
      LostSinceStep(es, k, id);
    }
    assert LostSince(es, |init|, id) <==> Loses(C.Run(init), last.e, id);
  }

  /** In every run an unfinished session is OFFLINE exactly when a disconnect of its station was handled
      while it was on file and no reconnection since then resumed it. */
  lemma {:induction false} SessionOfflineIff(es: seq<C.Timed>, id: SessionId)
    requires id in C.Run(es).tables.sessions && !Terminal(C.Run(es).tables.sessions[id].status)
    ensures C.Run(es).tables.sessions[id].status == Offline <==> exists k :: LostSince(es, k, id)
    decreases |es|
  {
    var init, last := es[..|es| - 1], es[|es| - 1];
    var p := C.Run(init);
    C.RunCoherent(init);
    StatusFollows(p, last.e, last.now, id);
    LostSinceIff(es, id);
    if id in p.tables.sessions {
      SessionOfflineIff(init, id);
    } else {
      forall k ensures !LostSince(init, k, id) {
        if LostSince(init, k, id) { LostIsOnFile(init, k, id); }
      }
    }
  }
}
