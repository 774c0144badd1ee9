/** One work order per outage: the connected plant, the two sweeps that look at it every minute, and
    everybody else who works on orders, all interleaved. The clock never goes back. */
module Outages {
  import opened Common
  import Sessions
  import C = Connectivity
  import opened WorkOrders
  import opened WorkOrderServices
  import Coordinator
  import D = WorkOrderDesk

  const OFFLINE_THRESHOLD_MS := 15 * 60_000

  /** A station that has been out since the given disconnect. */
  datatype Outage = Outage(station: StationId, since: int)

  /** A connection note as the coordinator handled it. */
  datatype Notice = Notice(station: StationId, at: int, connected: bool)

  /** active are the stations in service; noticed are the outages that sweeps have read and not looked
      into yet, guarded those found without an order and about to get one. answers says which
      disconnect each outage order was created for; history is every note handled. */
  datatype Fleet = Fleet(
    plant: C.Plant, active: set<StationId>, desk: D.Desk, noticed: multiset<Outage>, guarded: multiset<Outage>,
    answers: map<OrderId, int>, history: seq<Notice>, clock: int)

  datatype Event =
    | PlantEvent(e: C.Event)
    | PutInService(station: StationId)
    | TakeOutOfService(station: StationId)
    | OfflineReads
    | OfflineGuards(read: Outage)
    | OfflineCreates(found: Outage)
    | OrderWork(work: D.Event)

  const NO_FLEET := Fleet(C.BARE, {}, D.NEW_DESK, multiset{}, multiset{}, map[], [], 0)

  predicate StaleStation(stations: map<StationId, C.Station>, active: set<StationId>, st: StationId, now: int) {
    && st in stations && st in active && stations[st].link == C.OfflineLink
    && stations[st].lastDisconnectedAt.Some? && stations[st].lastDisconnectedAt.value < now - OFFLINE_THRESHOLD_MS
  }

  function Stale(stations: map<StationId, C.Station>, active: set<StationId>, now: int): set<Outage> {
    set st | st in stations && StaleStation(stations, active, st, now) ::
      Outage(st, stations[st].lastDisconnectedAt.value)
  }

  /** An outage order created at or after the given disconnect, whatever became of it. */
  predicate Covers(o: Order, out: Outage) {
    o.station == out.station && o.source == ConnectivityLoss && o.createdAt >= out.since
  }

  predicate Covered(b: Book, out: Outage) {
    exists id | id in b.orders :: Covers(b.orders[id], out)
  }

  function OutageOrder(st: StationId): Op {
    CreateOrder(st, ConnectivityLoss, High, None, None)
  }

  function CreateOutageOrder(b: Book, st: StationId, now: int): Book {
    Created(b, OutageOrder(st), now)
  }

  function CreateIfNotDuplicate(b: Book, out: Outage, now: int): Book {
    if Covered(b, out) then b else CreateOutageOrder(b, out.station, now)
  }

  /** Operators create only orders of the other sources, and sweeps look at the stations as they are. */
  ghost predicate DeskWork(f: Fleet, e: D.Event) {
    match e
    case Creates(op, _) => op.CreateOrder? ==> op.source != ConnectivityLoss
    case SweepReads(stations) => stations == f.plant.stations
    case _ => true
  }

  ghost predicate Enabled(f: Fleet, e: Event, now: int) {
    && f.clock <= now
    && match e
       case OfflineGuards(read) => read in f.noticed
       case OfflineCreates(found) => found in f.guarded
       case OrderWork(work) => DeskWork(f, work)
       case _ => true
  }

  ghost function HistoryAfter(f: Fleet, e: C.Event, now: int): seq<Notice> {
    if e.Deliver? && C.Enabled(f.plant, e)
    then f.history + [Notice(e.to, now, C.QueueOf(f.plant, e.to)[0].Connected?)] else f.history
  }

  /** A sweep's read, its look at one outage and its creation of one order are steps of their own. */
  ghost function Step(f: Fleet, e: Event, now: int): Fleet {
    if !Enabled(f, e, now) then f else
    var g := f.(clock := now);
    match e
    case PlantEvent(pe) => g.(plant := C.Step(f.plant, pe, now), history := HistoryAfter(f, pe, now))
    case PutInService(st) => g.(active := f.active + {st})
    case TakeOutOfService(st) => g.(active := f.active - {st})
    case OfflineReads => g.(noticed := f.noticed + multiset(Stale(f.plant.stations, f.active, now)))
    case OfflineGuards(out) =>
      g.(noticed := f.noticed - multiset{out},
         guarded := if Covered(f.desk.book, out) then f.guarded else f.guarded + multiset{out})
    case OfflineCreates(out) =>
      g.(guarded := f.guarded - multiset{out}, answers := f.answers[f.desk.book.next := out.since],
         desk := f.desk.(book := CreateOutageOrder(f.desk.book, out.station, now)))
    case OrderWork(work) => g.(desk := D.Step(f.desk, work, now))
  }

  // ---------------------------------------------------------------- what is kept about the past

  ghost predicate Dropped(h: seq<Notice>, out: Outage) {
    Notice(out.station, out.since, false) in h
  }

  /** Whether the last handled note of the station was a disconnect. */
  ghost predicate LastDropped(h: seq<Notice>, st: StationId) {
    h != [] && if h[|h| - 1].station == st then !h[|h| - 1].connected else LastDropped(h[..|h| - 1], st)
  }

  ghost predicate InOrder(h: seq<Notice>, clock: int) {
    (forall k, l :: 0 <= k < l < |h| ==> h[k].at <= h[l].at) && forall k :: 0 <= k < |h| ==> h[k].at <= clock
  }

  ghost predicate ReturnBetween(h: seq<Notice>, st: StationId, p: int, r: int) {
    exists q :: 0 <= p < q < r <= |h| && h[q].station == st && h[q].connected
  }

  /** Between two disconnects of a station it came back. */
  ghost predicate ReturnsBetween(h: seq<Notice>) {
    forall p, r :: 0 <= p < r < |h| && h[p].station == h[r].station && !h[p].connected && !h[r].connected
      ==> ReturnBetween(h, h[p].station, p, r)
  }

  ghost predicate PlantSound(p: C.Plant, h: seq<Notice>) {
    && C.Coherent(p) && ReturnsBetween(h)
    && (forall st :: C.Alternates(p, st) && (C.LinkOf(p.stations, st) == C.OfflineLink <==> LastDropped(h, st)))
    && forall st :: Stamped(p.stations, h, st)
  }

  /** When a connection (or a disconnect) of the station was last handled. */
  ghost function LastAt(h: seq<Notice>, st: StationId, connected: bool): Option<int> {
    if h == [] then None
    else if h[|h| - 1].station == st && h[|h| - 1].connected == connected then Some(h[|h| - 1].at)
    else LastAt(h[..|h| - 1], st, connected)
  }

  /** The station's row carries exactly those two times. */
  ghost predicate Stamped(stations: map<StationId, C.Station>, h: seq<Notice>, st: StationId) {
    && C.RowOf(stations, st).lastConnectedAt == LastAt(h, st, true)
    && C.RowOf(stations, st).lastDisconnectedAt == LastAt(h, st, false)
  }

  lemma LastAtSnoc(h: seq<Notice>, n: Notice, st: StationId, connected: bool)
    ensures LastAt(h + [n], st, connected) ==
      if n.station == st && n.connected == connected then Some(n.at) else LastAt(h, st, connected)
  {
    assert (h + [n])[..|h|] == h;
  }

  lemma {:induction false} LastAtHappened(h: seq<Notice>, st: StationId)
    requires LastAt(h, st, false).Some?
    ensures Dropped(h, Outage(st, LastAt(h, st, false).value))
    decreases |h|
  {
    var last := h[|h| - 1];
    if !(last.station == st && !last.connected) { LastAtHappened(h[..|h| - 1], st); }
  }

  lemma Snoc(h: seq<Notice>, n: Notice, st: StationId)
    ensures LastDropped(h + [n], st) <==> if n.station == st then !n.connected else LastDropped(h, st)
  {
    assert (h + [n])[..|h|] == h;
  }

  /** If the last note of a station was not a disconnect, every earlier disconnect was followed by a return. */
  lemma {:induction false} ReturnSince(h: seq<Notice>, st: StationId, p: int)
    requires 0 <= p < |h| && h[p].station == st && !h[p].connected && !LastDropped(h, st)
    ensures ReturnBetween(h, st, p, |h|)
    decreases |h|
  {
    if h[|h| - 1].station == st {
      assert h[|h| - 1].connected;
    } else {
      var init := h[..|h| - 1];
      ReturnSince(init, st, p);
      var q :| 0 <= p < q < |h| - 1 && init[q].station == st && init[q].connected;
      assert h[q] == init[q];
    }
  }

  lemma ReturnsExtended(h: seq<Notice>, n: Notice)
    requires ReturnsBetween(h) && (!n.connected ==> !LastDropped(h, n.station))
    ensures ReturnsBetween(h + [n])
  {
    var h' := h + [n];
    forall p, r | 0 <= p < r < |h'| && h'[p].station == h'[r].station && !h'[p].connected && !h'[r].connected
      ensures ReturnBetween(h', h'[p].station, p, r)
    {
      var until := if r < |h| then r else |h|;
      if r == |h| { ReturnSince(h, n.station, p); }
      assert ReturnBetween(h, h'[p].station, p, until);
      var q :| 0 <= p < q < until && h[q].station == h'[p].station && h[q].connected;
      assert h'[q] == h[q];
    }
  }

  /** What handling a note does to the stations. */
  lemma DeliverStations(p: C.Plant, st: StationId, pick: Option<Sessions.SessionId>, now: int)
    requires C.Enabled(p, C.Deliver(st, pick))
    ensures C.Step(p, C.Deliver(st, pick), now).stations ==
      if C.QueueOf(p, st)[0].Connected? then C.MarkOnline(p.stations, st, now) else C.MarkOffline(p.stations, st, now)
  {
  }

  lemma DeliverStamps(p: C.Plant, h: seq<Notice>, st: StationId, pick: Option<Sessions.SessionId>, now: int,
                      other: StationId)
    requires C.Enabled(p, C.Deliver(st, pick)) && Stamped(p.stations, h, other)
    ensures Stamped(C.Step(p, C.Deliver(st, pick), now).stations,
                    h + [Notice(st, now, C.QueueOf(p, st)[0].Connected?)], other)
  {
    DeliverStations(p, st, pick, now);
    LastAtSnoc(h, Notice(st, now, C.QueueOf(p, st)[0].Connected?), other, true);
    LastAtSnoc(h, Notice(st, now, C.QueueOf(p, st)[0].Connected?), other, false);
  }

  lemma DeliverSound(p: C.Plant, h: seq<Notice>, st: StationId, pick: Option<Sessions.SessionId>, now: int)
    requires PlantSound(p, h) && C.Enabled(p, C.Deliver(st, pick))
    ensures PlantSound(C.Step(p, C.Deliver(st, pick), now), h + [Notice(st, now, C.QueueOf(p, st)[0].Connected?)])
  {
    var n := Notice(st, now, C.QueueOf(p, st)[0].Connected?);
    var p' := C.Step(p, C.Deliver(st, pick), now);
    C.StepCoherent(p, C.Deliver(st, pick), now);
    DeliverStations(p, st, pick, now);
    assert C.Alternates(p, st);
    ReturnsExtended(h, n);
    forall other ensures
      C.Alternates(p', other) && (C.LinkOf(p'.stations, other) == C.OfflineLink <==> LastDropped(h + [n], other))
    {
      assert C.Alternates(p, other);
      C.StepAlternates(p, C.Deliver(st, pick), now, other);
      Snoc(h, n, other);
    }
    forall other ensures Stamped(p'.stations, h + [n], other) {
      DeliverStamps(p, h, st, pick, now, other);
    }
  }

  lemma OtherPlantSound(p: C.Plant, h: seq<Notice>, e: C.Event, now: int)
    requires PlantSound(p, h) && !(e.Deliver? && C.Enabled(p, e))
    ensures PlantSound(C.Step(p, e, now), h)
  {
    var p' := C.Step(p, e, now);
    C.StepCoherent(p, e, now);
    forall st ensures C.Alternates(p', st) && (C.LinkOf(p'.stations, st) == C.OfflineLink <==> LastDropped(h, st)) {
      assert C.Alternates(p, st);
      C.StepAlternates(p, e, now, st);
    }
    forall st ensures Stamped(p'.stations, h, st) {
      assert Stamped(p.stations, h, st);
    }
  }

  // ---------------------------------------------------------------- the invariant

  predicate IsOutage(o: Order) {
    o.source == ConnectivityLoss
  }

  predicate SameStationOutages(o: Order, o': Order) {
    IsOutage(o) && IsOutage(o') && o.station == o'.station
  }

  /** Every outage order was created for a disconnect that happened, more than the threshold before. */
  ghost predicate OutageBehind(b: Book, answers: map<OrderId, int>, h: seq<Notice>) {
    forall id :: id in b.orders && IsOutage(b.orders[id]) ==>
      && b.orders[id].priority == High && id in answers && Dropped(h, Outage(b.orders[id].station, answers[id]))
      && answers[id] < b.orders[id].createdAt - OFFLINE_THRESHOLD_MS
  }

  /** What a sweep has read is of disconnects that happened, more than the threshold ago. */
  ghost predicate ReadsSound(outs: multiset<Outage>, h: seq<Notice>, clock: int) {
    forall out :: out in outs ==> Dropped(h, out) && out.since < clock - OFFLINE_THRESHOLD_MS
  }

  ghost predicate Sound(f: Fleet) {
    && PlantSound(f.plant, f.history) && InOrder(f.history, f.clock) && D.Sound(f.desk)
    && OutageBehind(f.desk.book, f.answers, f.history)
    && ReadsSound(f.noticed, f.history, f.clock) && ReadsSound(f.guarded, f.history, f.clock)
  }

  /** No outage order appears, and those there are keep their station, source and creation time. */
  ghost predicate SameOutages(b: Book, b': Book) {
    && (forall id :: id in b'.orders && IsOutage(b'.orders[id]) ==> id in b.orders)
    && forall id :: id in b.orders ==>
         id in b'.orders && b'.orders[id].station == b.orders[id].station && b'.orders[id].source == b.orders[id].source
         && b'.orders[id].createdAt == b.orders[id].createdAt && b'.orders[id].priority == b.orders[id].priority
  }

  lemma WrittenSame(b: Book, d: Decision, now: int)
    requires d.order in b.orders
    ensures SameOutages(b, WriteDecided(b, d, now))
  {
  }

  lemma CreatedSame(b: Book, op: Op, now: int)
    requires Booked(b) && op.CreateOrder? && op.source != ConnectivityLoss
    ensures SameOutages(b, Created(b, op, now))
  {
  }

  lemma DeskWorkSame(k: D.Desk, e: D.Event, now: int)
    requires D.Sound(k) && (e.Creates? && e.op.CreateOrder? ==> e.op.source != ConnectivityLoss)
    ensures SameOutages(k.book, D.Step(k, e, now).book)
  {
    match e
    case Creates(op, context) =>
      if op.CreateOrder? && FaultOf(k.book, op, context) == None { CreatedSame(k.book, op, now); }
    case Writes(d) => if D.Lands(k, d) { WrittenSame(k.book, d, now); }
    case _ =>
  }

  lemma FewerReads(outs: multiset<Outage>, out: Outage, h: seq<Notice>, clock: int, now: int)
    requires ReadsSound(outs, h, clock) && clock <= now
    ensures ReadsSound(outs - multiset{out}, h, now)
  {
    assert forall other :: other in outs - multiset{out} ==> other in outs;
  }

  lemma StaleSound(f: Fleet, now: int)
    requires Sound(f) && f.clock <= now
    ensures ReadsSound(f.noticed + multiset(Stale(f.plant.stations, f.active, now)), f.history, now)
  {
    forall out | out in Stale(f.plant.stations, f.active, now)
      ensures Dropped(f.history, out) && out.since < now - OFFLINE_THRESHOLD_MS
    {
      assert Stamped(f.plant.stations, f.history, out.station);
      LastAtHappened(f.history, out.station);
    }
  }

  lemma PlantEventSound(f: Fleet, e: C.Event, now: int)
    requires Sound(f) && f.clock <= now
    ensures Sound(Step(f, PlantEvent(e), now))
  {
    if e.Deliver? && C.Enabled(f.plant, e) {
      DeliverSound(f.plant, f.history, e.to, e.pick, now);
    } else {
      OtherPlantSound(f.plant, f.history, e, now);
    }
  }

  lemma CreateBehind(b: Book, answers: map<OrderId, int>, h: seq<Notice>, out: Outage, now: int)
    requires Booked(b) && OutageBehind(b, answers, h) && Dropped(h, out) && out.since < now - OFFLINE_THRESHOLD_MS
    ensures OutageBehind(CreateOutageOrder(b, out.station, now), answers[b.next := out.since], h)
    ensures Booked(CreateOutageOrder(b, out.station, now))
  {
  }

  lemma CreateSound(f: Fleet, out: Outage, now: int)
    requires Sound(f) && f.clock <= now && out in f.guarded
    ensures Sound(Step(f, OfflineCreates(out), now))
  {
    FewerReads(f.guarded, out, f.history, f.clock, now);
    CreateBehind(f.desk.book, f.answers, f.history, out, now);
  }

  lemma GuardSound(f: Fleet, out: Outage, now: int)
    requires Sound(f) && f.clock <= now && out in f.noticed
    ensures Sound(Step(f, OfflineGuards(out), now))
  {
    FewerReads(f.noticed, out, f.history, f.clock, now);
  }

  lemma WorkSound(f: Fleet, work: D.Event, now: int)
    requires Sound(f) && f.clock <= now && DeskWork(f, work)
    ensures Sound(Step(f, OrderWork(work), now))
  {
    D.StepSound(f.desk, work, now);
    DeskWorkSame(f.desk, work, now);
    BehindAlike(f.desk.book, D.Step(f.desk, work, now).book, f.answers, f.history);
  }

  lemma BehindAlike(b: Book, b': Book, answers: map<OrderId, int>, h: seq<Notice>)
    requires SameOutages(b, b') && OutageBehind(b, answers, h)
    ensures OutageBehind(b', answers, h)
  {
  }

  /** Every step keeps all of it, whatever sweeps are under way. */
  lemma {:induction false} StepSound(f: Fleet, e: Event, now: int)
    requires Sound(f)
    ensures Sound(Step(f, e, now))
  {
    if !Enabled(f, e, now) { return; }
    match e
    case PlantEvent(pe) => PlantEventSound(f, pe, now);
    case PutInService(_) =>
    case TakeOutOfService(_) =>
    case OfflineReads => StaleSound(f, now);
    case OfflineGuards(out) => GuardSound(f, out, now);
    case OfflineCreates(out) => CreateSound(f, out, now);
    case OrderWork(work) => WorkSound(f, work, now);
  }

  // ---------------------------------------------------------------- over whole runs

  datatype Timed = Timed(e: Event, now: int)

  ghost function Run(es: seq<Timed>): Fleet {
    if es == [] then NO_FLEET else Step(Run(es[..|es| - 1]), es[|es| - 1].e, es[|es| - 1].now)
  }

  lemma {:induction false} RunSound(es: seq<Timed>)
    ensures Sound(Run(es))
    decreases |es|
  {
    if es != [] {
      RunSound(es[..|es| - 1]);
      StepSound(Run(es[..|es| - 1]), es[|es| - 1].e, es[|es| - 1].now);
    }
  }

  /** No outage order without an outage: a disconnect of its station, handled more than the threshold
      before the order was created. */
  lemma {:induction false} OutageBehindOrder(es: seq<Timed>, id: OrderId)
    requires id in Run(es).desk.book.orders && IsOutage(Run(es).desk.book.orders[id])
    ensures Run(es).desk.book.orders[id].priority == High
    ensures var o := Run(es).desk.book.orders[id];
      exists k :: 0 <= k < |Run(es).history| && Run(es).history[k].station == o.station && !Run(es).history[k].connected
        && Run(es).history[k].at < o.createdAt - OFFLINE_THRESHOLD_MS
  {
    RunSound(es);
    var o := Run(es).desk.book.orders[id];
    var k :| 0 <= k < |Run(es).history| && Run(es).history[k] == Notice(o.station, Run(es).answers[id], false);
  }

  // ---------------------------------------------------------------- what the sweeps read

  /** The outage the handled notes show: the station's last note was a disconnect, that long ago. */
  ghost predicate OutFor15Minutes(h: seq<Notice>, out: Outage, now: int) {
    LastDropped(h, out.station) && LastAt(h, out.station, false) == Some(out.since) && out.since < now - 15 * 60_000
  }

  lemma StaleIff(f: Fleet, now: int, out: Outage)
    requires Sound(f)
    ensures out in Stale(f.plant.stations, f.active, now) <==>
      out.station in f.active && OutFor15Minutes(f.history, out, now)
  {
    assert Stamped(f.plant.stations, f.history, out.station);
    assert C.LinkOf(f.plant.stations, out.station) == C.OfflineLink <==> LastDropped(f.history, out.station);
  }

  /** In every run the offline sweep reads exactly the outages of the stations in service whose last
      handled note is a disconnect more than fifteen minutes old, each once, with its time. */
  lemma {:induction false} SweepReadsIff(es: seq<Timed>, now: int, out: Outage)
    requires Run(es).clock <= now
    ensures var f := Run(es);
      Step(f, OfflineReads, now).noticed[out] ==
        f.noticed[out] + if out.station in f.active && OutFor15Minutes(f.history, out, now) then 1 else 0
  {
    RunSound(es);
    StaleIff(Run(es), now, out);
  }

  /** The order is an unfinished outage order of an ONLINE station whose last handled connection came
      after the order was created. */
  ghost predicate BackSince(f: Fleet, o: Order) {
    && IsOutage(o) && !Closed(o.status) && C.LinkOf(f.plant.stations, o.station) == C.Online
    && LastAt(f.history, o.station, true).Some? && LastAt(f.history, o.station, true).value > o.createdAt
  }

  lemma RecoveredIff(stations: map<StationId, C.Station>, h: seq<Notice>, o: Order)
    requires Stamped(stations, h, o.station)
    ensures Recovered(o, stations) <==>
      && IsOutage(o) && !Closed(o.status) && C.LinkOf(stations, o.station) == C.Online
      && LastAt(h, o.station, true).Some? && LastAt(h, o.station, true).value > o.createdAt
  {
  }

  lemma SweepDecides(k: D.Desk, stations: map<StationId, C.Station>, now: int, id: OrderId)
    ensures D.Step(k, D.SweepReads(stations), now).decided[Auto(id)] ==
      k.decided[Auto(id)] + if id in Eligible(k.book, stations) then 1 else 0
  {
    D.AutoAllCounts(Eligible(k.book, stations), id);
  }

  /** In every run the recovery sweep decides to close exactly such orders, each once. */
  lemma {:induction false} RecoveryReadsIff(es: seq<Timed>, now: int, id: OrderId)
    requires Run(es).clock <= now && id in Run(es).desk.book.orders
    ensures var f := Run(es);
      Step(f, OrderWork(D.SweepReads(f.plant.stations)), now).desk.decided[Auto(id)] ==
        f.desk.decided[Auto(id)] + if BackSince(f, f.desk.book.orders[id]) then 1 else 0
  {
    RunSound(es);
    var f := Run(es);
    assert Stamped(f.plant.stations, f.history, f.desk.book.orders[id].station);
    RecoveredIff(f.plant.stations, f.history, f.desk.book.orders[id]);
    SweepDecides(f.desk, f.plant.stations, now, id);
  }

  /** The station was last put in service, not taken out. */
  ghost predicate InService(es: seq<Timed>, st: StationId) {
    es != [] &&
      var init, last := es[..|es| - 1], es[|es| - 1];
      || (last.e == PutInService(st) && Run(init).clock <= last.now)
      || (InService(init, st) && !(last.e == TakeOutOfService(st) && Run(init).clock <= last.now))
  }

  lemma {:induction false} ActiveIff(es: seq<Timed>, st: StationId)
    ensures st in Run(es).active <==> InService(es, st)
    decreases |es|
  {
    if es != [] { ActiveIff(es[..|es| - 1], st); }
  }

  // ---------------------------------------------------------------- one order per outage

  /** No outage order answers a disconnect that an earlier order of its station already covered. */
  ghost predicate OnePerOutage(b: Book, answers: map<OrderId, int>) {
    forall i, j ::
      i in b.orders && j in b.orders && i < j && SameStationOutages(b.orders[i], b.orders[j]) && j in answers ==>
        b.orders[i].createdAt < answers[j]
  }

  /** A creation lands although the outage got its order since the sweep looked. */
  ghost predicate Doubles(f: Fleet, e: Event, now: int) {
    e.OfflineCreates? && Enabled(f, e, now) && Covered(f.desk.book, e.found)
  }

  lemma SameOutagesOne(b: Book, b': Book, answers: map<OrderId, int>)
    requires SameOutages(b, b')
    ensures OnePerOutage(b, answers) <==> OnePerOutage(b', answers)
  {
    assert forall i :: i in b.orders ==> i in b'.orders && b'.orders[i].station == b.orders[i].station;
  }

  lemma OneAfter(b: Book, answers: map<OrderId, int>, out: Outage, now: int)
    requires Booked(b) && OnePerOutage(b, answers) && !Covered(b, out)
    ensures OnePerOutage(CreateOutageOrder(b, out.station, now), answers[b.next := out.since])
  {
    var b', answers' := CreateOutageOrder(b, out.station, now), answers[b.next := out.since];
    forall i, j | i in b'.orders && j in b'.orders && i < j && SameStationOutages(b'.orders[i], b'.orders[j])
      && j in answers'
      ensures b'.orders[i].createdAt < answers'[j]
    {
      assert i in b.orders && b'.orders[i] == b.orders[i];
      if j == b.next {
        assert !Covers(b.orders[i], out);
      } else {
        assert SameStationOutages(b.orders[i], b.orders[j]);
      }
    }
  }

  lemma OneBefore(b: Book, answers: map<OrderId, int>, out: Outage, now: int)
    requires Booked(b) && OnePerOutage(CreateOutageOrder(b, out.station, now), answers[b.next := out.since])
    ensures OnePerOutage(b, answers)
  {
    var b', answers' := CreateOutageOrder(b, out.station, now), answers[b.next := out.since];
    forall i, j | i in b.orders && j in b.orders && i < j && SameStationOutages(b.orders[i], b.orders[j])
      && j in answers
      ensures b.orders[i].createdAt < answers[j]
    {
      assert b'.orders[i] == b.orders[i] && b'.orders[j] == b.orders[j] && answers'[j] == answers[j];
      assert SameStationOutages(b'.orders[i], b'.orders[j]);
    }
  }

  lemma UncoveredBefore(b: Book, answers: map<OrderId, int>, out: Outage, now: int)
    requires Booked(b) && OnePerOutage(CreateOutageOrder(b, out.station, now), answers[b.next := out.since])
    ensures !Covered(b, out)
  {
    var b' := CreateOutageOrder(b, out.station, now);
    forall i | i in b.orders ensures !Covers(b.orders[i], out) {
      assert b'.orders[i] == b.orders[i] && b'.orders[b.next] == NewOrder(OutageOrder(out.station), now);
      assert Covers(b.orders[i], out) ==> SameStationOutages(b'.orders[i], b'.orders[b.next]);
    }
  }

  lemma CreateOneIff(b: Book, answers: map<OrderId, int>, out: Outage, now: int)
    requires Booked(b)
    ensures OnePerOutage(CreateOutageOrder(b, out.station, now), answers[b.next := out.since]) <==>
      OnePerOutage(b, answers) && !Covered(b, out)
  {
    if OnePerOutage(CreateOutageOrder(b, out.station, now), answers[b.next := out.since]) {
      OneBefore(b, answers, out, now);
      UncoveredBefore(b, answers, out, now);
    } else if OnePerOutage(b, answers) && !Covered(b, out) {
      OneAfter(b, answers, out, now);
    }
  }

  /** Exactly one thing gives an outage a second order. */
  lemma {:induction false} StepOneIff(f: Fleet, e: Event, now: int)
    requires Sound(f)
    ensures OnePerOutage(Step(f, e, now).desk.book, Step(f, e, now).answers) <==>
      OnePerOutage(f.desk.book, f.answers) && !Doubles(f, e, now)
  {
    if Enabled(f, e, now) {
      if e.OfflineCreates? {
        CreateOneIff(f.desk.book, f.answers, e.found, now);
      } else if e.OrderWork? {
        DeskWorkSame(f.desk, e.work, now);
        SameOutagesOne(f.desk.book, D.Step(f.desk, e.work, now).book, f.answers);
      }
    }
  }

  ghost predicate NeverDoubles(es: seq<Timed>) {
    es != [] ==> NeverDoubles(es[..|es| - 1]) && !Doubles(Run(es[..|es| - 1]), es[|es| - 1].e, es[|es| - 1].now)
  }

  /** Over every run, sweeps of both kinds overlapping in any way: each outage has one order exactly
      when no creation landed on an outage that had got its order since the sweep looked. */
  lemma {:induction false} OnePerOutageIff(es: seq<Timed>)
    ensures OnePerOutage(Run(es).desk.book, Run(es).answers) <==> NeverDoubles(es)
    decreases |es|
  {
    if es != [] {
      OnePerOutageIff(es[..|es| - 1]);
      RunSound(es[..|es| - 1]);
      StepOneIff(Run(es[..|es| - 1]), es[|es| - 1].e, es[|es| - 1].now);
    }
  }

  /** The handled disconnects that two outage orders answer, and the return between them. */
  ghost predicate CameBackBetween(h: seq<Notice>, a: Order, b: Order) {
    exists p, q, r :: 0 <= p < q < r < |h|
      && h[p].station == a.station && !h[p].connected && h[p].at < a.createdAt - OFFLINE_THRESHOLD_MS
      && h[q].station == a.station && h[q].connected
      && h[r].station == a.station && !h[r].connected && a.createdAt < h[r].at < b.createdAt - OFFLINE_THRESHOLD_MS
  }

  /** Two handled disconnects of a station, one later than the other, and the return between them. */
  lemma DropsApart(h: seq<Notice>, clock: int, st: StationId, first: int, second: int)
    requires InOrder(h, clock) && ReturnsBetween(h) && first < second
    requires Dropped(h, Outage(st, first)) && Dropped(h, Outage(st, second))
    ensures exists p, q, r ::
      && 0 <= p < q < r < |h| && h[p] == Notice(st, first, false)
      && h[q].station == st && h[q].connected && h[r] == Notice(st, second, false)
  {
    var p :| 0 <= p < |h| && h[p] == Notice(st, first, false);
    var r :| 0 <= r < |h| && h[r] == Notice(st, second, false);
    assert p < r;
    assert ReturnBetween(h, h[p].station, p, r);
  }

  /** Then of two outage orders of a station the later one answers a disconnect handled after the
      earlier one was created and more than the threshold before its own creation, and between the
      disconnects they answer the station came back, whatever became of either order. */
  lemma {:induction false} OneOrderPerOutage(es: seq<Timed>, i: OrderId, j: OrderId)
    requires var b := Run(es).desk.book;
      NeverDoubles(es) && i in b.orders && j in b.orders && i < j && SameStationOutages(b.orders[i], b.orders[j])
    ensures CameBackBetween(Run(es).history, Run(es).desk.book.orders[i], Run(es).desk.book.orders[j])
  {
    RunSound(es);
    OnePerOutageIff(es);
    var f := Run(es);
    var a, b := f.desk.book.orders[i], f.desk.book.orders[j];
    assert a.createdAt < f.answers[j];
    DropsApart(f.history, f.clock, a.station, f.answers[i], f.answers[j]);
  }

  /** Looking and creating at one go, which is what a sweep that nobody interrupts there does. */
  lemma GuardAndCreate(f: Fleet, out: Outage, now: int)
    requires f.clock <= now && out in f.noticed
    ensures var looked := Step(f, OfflineGuards(out), now);
      && (Covered(f.desk.book, out) ==> looked.desk == f.desk && looked.guarded == f.guarded)
      && (!Covered(f.desk.book, out) ==>
            && !Doubles(looked, OfflineCreates(out), now)
            && Step(looked, OfflineCreates(out), now).desk.book == CreateIfNotDuplicate(f.desk.book, out, now))
  {
  }

  // ---------------------------------------------------------------- no outage without an order

  /** Some sweep of the run read the outage. */
  ghost predicate WasRead(es: seq<Timed>, out: Outage) {
    es != [] &&
      var f, last := Run(es[..|es| - 1]), es[|es| - 1];
      || WasRead(es[..|es| - 1], out)
      || (last.e.OfflineReads? && Enabled(f, last.e, last.now) && out in Stale(f.plant.stations, f.active, last.now))
  }

  ghost predicate Pending(f: Fleet, out: Outage) {
    out in f.noticed || out in f.guarded
  }

  lemma CoveredAlike(b: Book, b': Book, out: Outage)
    requires SameOutages(b, b') && Covered(b, out)
    ensures Covered(b', out)
  {
    var id :| id in b.orders && Covers(b.orders[id], out);
    assert Covers(b'.orders[id], out);
  }

  lemma CoveredAfterCreate(b: Book, st: StationId, now: int, out: Outage)
    requires Booked(b) && Covered(b, out)
    ensures Covered(CreateOutageOrder(b, st, now), out)
  {
    var id :| id in b.orders && Covers(b.orders[id], out);
    assert Covers(CreateOutageOrder(b, st, now).orders[id], out);
  }

  lemma StillCovered(f: Fleet, e: Event, now: int, out: Outage)
    requires D.Sound(f.desk) && Covered(f.desk.book, out)
    ensures Covered(Step(f, e, now).desk.book, out)
  {
    if Enabled(f, e, now) {
      if e.OrderWork? {
        DeskWorkSame(f.desk, e.work, now);
        CoveredAlike(f.desk.book, D.Step(f.desk, e.work, now).book, out);
      } else if e.OfflineCreates? {
        CoveredAfterCreate(f.desk.book, e.found.station, now, out);
      }
    }
  }

  lemma CreatedCovers(f: Fleet, out: Outage, now: int)
    requires Sound(f) && f.clock <= now && out in f.guarded
    ensures Covered(Step(f, OfflineCreates(out), now).desk.book, out)
  {
    assert Covers(Step(f, OfflineCreates(out), now).desk.book.orders[f.desk.book.next], out);
  }

  lemma StillPending(f: Fleet, e: Event, now: int, out: Outage)
    requires Pending(f, out) && e != OfflineCreates(out) && !Covered(f.desk.book, out)
    ensures Pending(Step(f, e, now), out)
  {
    var f' := Step(f, e, now);
    if Enabled(f, e, now) {
      match e
      case OfflineGuards(other) =>
        assert out in f.noticed && other != out ==> out in f.noticed - multiset{other};
      case OfflineCreates(other) =>
        assert out in f.guarded ==> out in f.guarded - multiset{other};
      case _ =>
    }
  }

  lemma PendingOrCovered(f: Fleet, e: Event, now: int, out: Outage)
    requires Sound(f) && (Pending(f, out) || Covered(f.desk.book, out))
    ensures Pending(Step(f, e, now), out) || Covered(Step(f, e, now).desk.book, out)
  {
    if Covered(f.desk.book, out) {
      StillCovered(f, e, now, out);
    } else if Enabled(f, e, now) && e == OfflineCreates(out) {
      CreatedCovers(f, out, now);
    } else if e != OfflineCreates(out) {
      StillPending(f, e, now, out);
    }
  }

  /** No outage without an order: one that a sweep read is waiting to be looked into or given its order,
      or has one, whatever else happened. */
  lemma {:induction false} ReadIsCovered(es: seq<Timed>, out: Outage)
    requires WasRead(es, out)
    ensures Pending(Run(es), out) || Covered(Run(es).desk.book, out)
    decreases |es|
  {
    var f, last := Run(es[..|es| - 1]), es[|es| - 1];
    RunSound(es[..|es| - 1]);
    if WasRead(es[..|es| - 1], out) {
      ReadIsCovered(es[..|es| - 1], out);
      PendingOrCovered(f, last.e, last.now, out);
    }
  }

  ghost function RunFrom(f: Fleet, es: seq<Timed>): Fleet {
    if es == [] then f else Step(RunFrom(f, es[..|es| - 1]), es[|es| - 1].e, es[|es| - 1].now)
  }

  /** And once it has one it has it for good: a later sweep that looks into it creates nothing. */
  lemma {:induction false} CoveredForGood(f: Fleet, es: seq<Timed>, out: Outage, now: int)
    requires Sound(f) && Covered(f.desk.book, out)
    ensures var g := RunFrom(f, es);
      Sound(g) && Covered(g.desk.book, out) && CreateIfNotDuplicate(g.desk.book, out, now) == g.desk.book
    decreases |es|
  {
    if es != [] {
      var init, last := es[..|es| - 1], es[|es| - 1];
      CoveredForGood(f, init, out, now);
      StepSound(RunFrom(f, init), last.e, last.now);
      StillCovered(RunFrom(f, init), last.e, last.now, out);
    }
  }

  // ---------------------------------------------------------------- two overlapping sweeps

  /** The outage was given two orders in a row. */
  ghost predicate Doubled(f: Fleet, first: OrderId, out: Outage) {
    var b := f.desk.book;
    && first in b.orders && first + 1 in b.orders && SameStationOutages(b.orders[first], b.orders[first + 1])
    && first in f.answers && first + 1 in f.answers && f.answers[first] == f.answers[first + 1] == out.since
  }

  lemma BothLook(f: Fleet, out: Outage, now: int)
    requires f.clock <= now && f.noticed[out] >= 2 && !Covered(f.desk.book, out)
    ensures var f2 := Step(Step(f, OfflineGuards(out), now), OfflineGuards(out), now);
      f2.guarded[out] >= 2 && f2.desk == f.desk && f2.answers == f.answers && f2.clock == now
  {
    var f1 := Step(f, OfflineGuards(out), now);
    assert f1.noticed[out] >= 1 && f1.guarded[out] >= 1 && f1.desk == f.desk && f1.answers == f.answers;
  }

  lemma BothCreate(f: Fleet, out: Outage, now: int)
    requires f.clock <= now && f.guarded[out] >= 2
    ensures var f1 := Step(f, OfflineCreates(out), now);
      Doubled(Step(f1, OfflineCreates(out), now), f.desk.book.next, out)
  {
    var f1 := Step(f, OfflineCreates(out), now);
    assert f1.guarded[out] >= 1 && f1.desk.book.next == f.desk.book.next + 1;
  }

  /** Two sweeps read the same outage and both look before either creates: it gets two orders. */
  lemma OverlappingSweepsDouble(f: Fleet, out: Outage, now: int)
    requires f.clock <= now && f.noticed[out] >= 2 && !Covered(f.desk.book, out)
    ensures var f2 := Step(Step(f, OfflineGuards(out), now), OfflineGuards(out), now);
      Doubled(Step(Step(f2, OfflineCreates(out), now), OfflineCreates(out), now), f.desk.book.next, out)
  {
    BothLook(f, out, now);
    BothCreate(Step(Step(f, OfflineGuards(out), now), OfflineGuards(out), now), out, now);
  }

  // ---------------------------------------------------------------- the automation service

  class WorkOrderAutomationService {
    const table: Coordinator.StationTable
    const tables: OrderTables
    const workOrders: WorkOrderService

    constructor (table: Coordinator.StationTable, tables: OrderTables, workOrders: WorkOrderService)
      ensures this.table == table && this.tables == tables && this.workOrders == workOrders
    {
      this.table, this.tables, this.workOrders := table, tables, workOrders;
    }

    /** A sweep that nobody interrupts: every stale station once, in any order. */
    method SweepOfflineStations(active: set<StationId>, now: int) returns (swept: seq<Outage>)
      requires workOrders.tables == tables
      modifies tables
      ensures ListsOutages(swept, Stale(table.stations, active, now))
      ensures tables.Contents() == SweepEach(old(tables.Contents()), swept, now)
      ensures old(Faithful(tables.Contents())) ==> Faithful(tables.Contents())
    {
      ghost var was := tables.Contents();
      var stale := Stale(table.stations, active, now);
      var remaining := stale;
      swept := [];
      while remaining != {}
        invariant remaining <= stale && ListsOutages(swept, stale - remaining)
        invariant tables.Contents() == SweepEach(was, swept, now)
        decreases remaining
      {
        var out :| out in remaining;
        remaining := remaining - {out};
        assert (swept + [out])[..|swept|] == swept;
        CreateUnlessCovered(out, now);
        swept := swept + [out];
      }
      assert stale - remaining == stale;
      if Faithful(was) { SweepEachFaithful(was, swept, now); }
    }

    /** Looks for an order of this outage and creates one if there is none. */
    method CreateUnlessCovered(out: Outage, now: int)
      requires workOrders.tables == tables
      modifies tables
      ensures tables.Contents() == CreateIfNotDuplicate(old(tables.Contents()), out, now)
    {
      var existing := exists id | id in tables.orders :: Covers(tables.orders[id], out);
      if !existing {
        var fault := workOrders.Create(OutageOrder(out.station), Context({}, {out.station}), now);
      }
    }
  }

  ghost predicate ListsOutages(outs: seq<Outage>, wanted: set<Outage>) {
    && (forall k :: 0 <= k < |outs| ==> outs[k] in wanted)
    && (forall out :: out in wanted ==> out in outs)
    && (forall k, l :: 0 <= k < l < |outs| ==> outs[k] != outs[l])
  }

  ghost function SweepEach(b: Book, outs: seq<Outage>, now: int): Book {
    if outs == [] then b else CreateIfNotDuplicate(SweepEach(b, outs[..|outs| - 1], now), outs[|outs| - 1], now)
  }

  lemma {:induction false} SweepEachFaithful(b: Book, outs: seq<Outage>, now: int)
    requires Faithful(b)
    ensures Faithful(SweepEach(b, outs, now))
    decreases |outs|
  {
    if outs != [] {
      SweepEachFaithful(b, outs[..|outs| - 1], now);
      CreateFaithful(SweepEach(b, outs[..|outs| - 1], now), OutageOrder(outs[|outs| - 1].station), now);
    }
  }

  /** Such a sweep leaves every outage it read covered, and a second one creates nothing. */
  lemma {:induction false} SweepCoversAndSettles(b: Book, outs: seq<Outage>, now: int, out: Outage, later: int)
    requires Booked(b) && out in outs && forall k :: 0 <= k < |outs| ==> outs[k].since <= now
    ensures var b' := SweepEach(b, outs, now);
      Booked(b') && Covered(b', out) && CreateIfNotDuplicate(b', out, later) == b'
    decreases |outs|
  {
    var init, last := outs[..|outs| - 1], outs[|outs| - 1];
    SweepBooked(b, init, now);
    var mid, b' := SweepEach(b, init, now), SweepEach(b, outs, now);
    if out in init {
      SweepCoversAndSettles(b, init, now, out, later);
      var id :| id in mid.orders && Covers(mid.orders[id], out);
      assert Covers(b'.orders[id], out);
    } else if !Covered(mid, last) {
      assert Covers(b'.orders[mid.next], last);
    }
  }

  lemma {:induction false} SweepBooked(b: Book, outs: seq<Outage>, now: int)
    requires Booked(b)
    ensures Booked(SweepEach(b, outs, now))
    decreases |outs|
  {
    if outs != [] { SweepBooked(b, outs[..|outs| - 1], now); }
  }
}
