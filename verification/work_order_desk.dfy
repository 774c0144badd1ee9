/** Everybody at work on the orders at once: operators, technicians and overlapping sweeps, each
    writing some time after it read and checked. When the log still tells what happened, and when
    it never will again. */
module WorkOrderDesk {
  import opened Common
  import C = Connectivity
  import opened WorkOrders

  /** decided holds the writes still to land, each as it was decided. */
  datatype Desk = Desk(book: Book, decided: multiset<Decision>)

  datatype Event =
    | Creates(op: Op, context: Context)
    | Checks(op: Op, context: Context)
    | SweepReads(stations: map<StationId, C.Station>)
    | Writes(decision: Decision)

  datatype Timed = Timed(e: Event, now: int)

  const NEW_DESK := Desk(NO_ORDERS, multiset{})

  /** What a sweep decides when it reads the candidates. */
  ghost function AutoAll(ids: set<OrderId>): multiset<Decision> {
    multiset(set id | id in ids :: Auto(id))
  }

  lemma AutoAllCounts(ids: set<OrderId>, id: OrderId)
    ensures AutoAll(ids)[Auto(id)] == if id in ids then 1 else 0
    ensures forall d :: d in AutoAll(ids) ==> d == Auto(d.order)
  {
    assert Auto(id) in (set i | i in ids :: Auto(i)) <==> id in ids;
  }

  /** The checks read, a write writes; in between anything may happen. */
  ghost function Step(k: Desk, e: Event, now: int): Desk {
    match e
    case Creates(op, context) => if op.CreateOrder? then k.(book := Apply(k.book, op, context, now)) else k
    case Checks(op, context) =>
      if op.CreateOrder? || FaultOf(k.book, op, context).Some? then k
      else k.(decided := k.decided + multiset{DecisionOf(op, k.book.orders[op.id])})
    case SweepReads(stations) => k.(decided := k.decided + AutoAll(Eligible(k.book, stations)))
    case Writes(d) =>
      if Lands(k, d) then Desk(WriteDecided(k.book, d, now), k.decided - multiset{d}) else k
  }

  ghost predicate Lands(k: Desk, d: Decision) {
    d in k.decided && d.order in k.book.orders
  }

  ghost function Run(k: Desk, es: seq<Timed>): Desk {
    if es == [] then k else Step(Run(k, es[..|es| - 1]), es[|es| - 1].e, es[|es| - 1].now)
  }

  lemma RunThen(k: Desk, es: seq<Timed>, e: Event, now: int)
    ensures Run(k, es + [Timed.Timed(e, now)]) == Step(Run(k, es), e, now)
  {
    assert (es + [Timed.Timed(e, now)])[..|es|] == es;
  }

  // ---------------------------------------------------------------- what every step keeps

  ghost predicate Sound(k: Desk) {
    Booked(k.book) && forall d :: d in k.decided ==> d.order in k.book.orders && Sensible(d)
  }

  lemma SweepSound(k: Desk, stations: map<StationId, C.Station>)
    requires Sound(k)
    ensures Sound(Step(k, SweepReads(stations), 0))
  {
    var decided := k.decided + AutoAll(Eligible(k.book, stations));
    forall d | d in decided ensures d.order in k.book.orders && Sensible(d) {
      AutoAllCounts(Eligible(k.book, stations), d.order);
    }
  }

  lemma StepSound(k: Desk, e: Event, now: int)
    requires Sound(k)
    ensures Sound(Step(k, e, now)) && k.book.orders.Keys <= Step(k, e, now).book.orders.Keys
  {
    match e
    case Creates(op, _) =>
    case Checks(op, context) =>
      if !op.CreateOrder? && FaultOf(k.book, op, context) == None { DecidedTimely(k.book, op, context); }
    case SweepReads(stations) => SweepSound(k, stations);
    case Writes(d) => if Lands(k, d) { WrittenBooked(k.book, d, now); }
  }

  lemma {:induction false} RunSound(k: Desk, es: seq<Timed>)
    requires Sound(k)
    ensures Sound(Run(k, es)) && k.book.orders.Keys <= Run(k, es).book.orders.Keys
    decreases |es|
  {
    if es != [] {
      RunSound(k, es[..|es| - 1]);
      StepSound(Run(k, es[..|es| - 1]), es[|es| - 1].e, es[|es| - 1].now);
    }
  }

  // ---------------------------------------------------------------- one step, one order

  /** The step writes to the order, which no longer meets what its writer had checked. */
  ghost predicate Late(k: Desk, e: Event, id: OrderId) {
    e.Writes? && Lands(k, e.decision) && e.decision.order == id && !Timely(k.book.orders[id], e.decision)
  }

  /** The step leaves the order's row and log alone. */
  ghost predicate Untouched(b: Book, b': Book, id: OrderId) {
    id in b.orders && id in b'.orders && b'.orders[id] == b.orders[id] && LogOf(b'.log, id) == LogOf(b.log, id)
  }

  ghost predicate WritesTo(k: Desk, e: Event, id: OrderId) {
    e.Writes? && Lands(k, e.decision) && e.decision.order == id
  }

  lemma OnlyWritesTouch(k: Desk, e: Event, now: int, id: OrderId)
    requires Sound(k) && id in k.book.orders && !WritesTo(k, e, id)
    ensures Untouched(k.book, Step(k, e, now).book, id)
    ensures OrderFaithful(Step(k, e, now).book, id) <==> OrderFaithful(k.book, id)
  {
    match e
    case Creates(op, context) =>
      if op.CreateOrder? && FaultOf(k.book, op, context) == None { CreatedKeeps(k.book, op, now, id); }
    case Checks(_, _) =>
    case SweepReads(_) =>
    case Writes(d) => if Lands(k, d) { OthersKept(k.book, d, now, id); }
  }

  /** A step takes an order's row and log out of step exactly when it is a late write. */
  lemma StepFaithfulIff(k: Desk, e: Event, now: int, id: OrderId)
    requires Sound(k) && id in k.book.orders && OrderFaithful(k.book, id)
    ensures id in Step(k, e, now).book.orders
    ensures OrderFaithful(Step(k, e, now).book, id) <==> !Late(k, e, id)
  {
    if WritesTo(k, e, id) {
      LateWriteIff(k.book, e.decision, now);
    } else {
      OnlyWritesTouch(k, e, now, id);
    }
  }

  lemma BornByCreate(k: Desk, e: Event, now: int, id: OrderId)
    requires id !in k.book.orders && id in Step(k, e, now).book.orders
    ensures e.Creates? && e.op.CreateOrder? && id == k.book.next && Step(k, e, now).book == Created(k.book, e.op, now)
  {
  }

  lemma BornFaithful(k: Desk, e: Event, now: int, id: OrderId)
    requires Sound(k) && id !in k.book.orders && id in Step(k, e, now).book.orders
    ensures OrderFaithful(Step(k, e, now).book, id)
  {
    BornByCreate(k, e, now, id);
    NewFaithful(k.book, e.op, now);
  }

  // ---------------------------------------------------------------- over whole runs

  /** No write of the run lands on the order late. */
  ghost predicate NeverLate(k: Desk, es: seq<Timed>, id: OrderId) {
    es != [] ==> NeverLate(k, es[..|es| - 1], id) && !Late(Run(k, es[..|es| - 1]), es[|es| - 1].e, id)
  }

  /** Whenever the order exists its row and log agree. */
  ghost predicate AlwaysFaithful(k: Desk, es: seq<Timed>, id: OrderId) {
    && (id in Run(k, es).book.orders ==> OrderFaithful(Run(k, es).book, id))
    && (es != [] ==> AlwaysFaithful(k, es[..|es| - 1], id))
  }

  /** For every interleaving of operators, technicians and sweeps: an order's row and log agree at
      every moment exactly when no write landed on it late. */
  lemma {:induction false} AlwaysFaithfulIff(k: Desk, es: seq<Timed>, id: OrderId)
    requires Sound(k) && (id in k.book.orders ==> OrderFaithful(k.book, id))
    ensures AlwaysFaithful(k, es, id) <==> NeverLate(k, es, id)
    decreases |es|
  {
    if es != [] {
      var init, last := es[..|es| - 1], es[|es| - 1];
      AlwaysFaithfulIff(k, init, id);
      RunSound(k, init);
      var y := Run(k, init);
      if id in y.book.orders {
        if AlwaysFaithful(k, init, id) { StepFaithfulIff(y, last.e, last.now, id); }
      } else if id in Step(y, last.e, last.now).book.orders {
        BornFaithful(y, last.e, last.now, id);
      }
    }
  }

  lemma {:induction false} RunFaithful(es: seq<Timed>)
    requires forall id :: NeverLate(NEW_DESK, es, id)
    ensures Faithful(Run(NEW_DESK, es).book)
  {
    RunSound(NEW_DESK, es);
    forall id | id in Run(NEW_DESK, es).book.orders ensures OrderFaithful(Run(NEW_DESK, es).book, id) {
      AlwaysFaithfulIff(NEW_DESK, es, id);
    }
  }

  /** Then replaying an order's log rebuilds its status, assignee, notes and times; the order is
      closed exactly when its last entry closes it, and that is its only closing entry. */
  lemma {:induction false} ReplayRebuilds(es: seq<Timed>, id: OrderId)
    requires id in Run(NEW_DESK, es).book.orders && NeverLate(NEW_DESK, es, id)
    ensures var b := Run(NEW_DESK, es).book;
      var entries := LogOf(b.log, id);
      && entries != [] && Replay(entries) == ViewOf(b.orders[id])
      && (ReplayPlan(entries).Some? ==> b.orders[id].scheduledAt == ReplayPlan(entries).value)
      && (Closed(b.orders[id].status) <==> Closes(entries[|entries| - 1].entry))
      && Closings(entries) == if Closed(b.orders[id].status) then 1 else 0
  {
    AlwaysFaithfulIff(NEW_DESK, es, id);
    ClosingIsLast(LogOf(Run(NEW_DESK, es).book.log, id));
  }

  // ---------------------------------------------------------------- late writes, for good

  /** The order's log is no legal run. */
  predicate Illegal(b: Book, id: OrderId) {
    LogOf(b.log, id) != [] && !LegalLog(LogOf(b.log, id))
  }

  /** An assignment that writes an old status back over a later one, on an unfinished order: the one
      late write that leaves the log legal, and only the row wrong. */
  ghost predicate Misassigns(k: Desk, e: Event, id: OrderId) {
    Late(k, e, id) && e.decision.change.Assigning? && !Closed(k.book.orders[id].status)
  }

  ghost predicate NeverMisassigned(k: Desk, es: seq<Timed>, id: OrderId) {
    es != [] ==> NeverMisassigned(k, es[..|es| - 1], id) && !Misassigns(Run(k, es[..|es| - 1]), es[|es| - 1].e, id)
  }

  lemma LateIsIllegal(b: Book, d: Decision, now: int)
    requires d.order in b.orders && OrderFaithful(b, d.order) && Sensible(d) && !Timely(b.orders[d.order], d)
    requires !(d.change.Assigning? && !Closed(b.orders[d.order].status))
    ensures Illegal(WriteDecided(b, d, now), d.order)
  {
    LogOfSnoc(b.log, LoggedAs(d, now), d.order);
    LegalSnoc(LogOf(b.log, d.order), LoggedAs(d, now));
  }

  /** Nothing that is written later makes an illegal log legal. */
  lemma IllegalStays(k: Desk, e: Event, now: int, id: OrderId)
    requires Sound(k) && id in k.book.orders && Illegal(k.book, id)
    ensures Illegal(Step(k, e, now).book, id)
  {
    if WritesTo(k, e, id) {
      LogOfSnoc(k.book.log, LoggedAs(e.decision, now), id);
      LegalSnoc(LogOf(k.book.log, id), LoggedAs(e.decision, now));
    } else {
      OnlyWritesTouch(k, e, now, id);
    }
  }

  lemma {:induction false} LateForGood(k: Desk, es: seq<Timed>, id: OrderId)
    requires Sound(k) && (id in k.book.orders ==> OrderFaithful(k.book, id))
    requires !NeverLate(k, es, id) && NeverMisassigned(k, es, id)
    ensures id in Run(k, es).book.orders && Illegal(Run(k, es).book, id)
    decreases |es|
  {
    var init, last := es[..|es| - 1], es[|es| - 1];
    var y := Run(k, init);
    RunSound(k, init);
    StepSound(y, last.e, last.now);
    if NeverLate(k, init, id) {
      AlwaysFaithfulIff(k, init, id);
      LateIsIllegal(y.book, last.e.decision, last.now);
    } else {
      LateForGood(k, init, id);
      IllegalStays(y, last.e, last.now, id);
    }
  }

  /** So, assignments apart, the end of a run tells: the order's row and log agree there exactly when
      no write of the whole run landed on it late, and otherwise its log is illegal for good. */
  lemma {:induction false} FaithfulAtEndIff(k: Desk, es: seq<Timed>, id: OrderId)
    requires Sound(k) && (id in k.book.orders ==> OrderFaithful(k.book, id)) && NeverMisassigned(k, es, id)
    requires id in Run(k, es).book.orders
    ensures OrderFaithful(Run(k, es).book, id) <==> NeverLate(k, es, id)
    ensures !NeverLate(k, es, id) ==> Illegal(Run(k, es).book, id)
  {
    if NeverLate(k, es, id) { AlwaysFaithfulIff(k, es, id); } else { LateForGood(k, es, id); }
  }

  // ---------------------------------------------------------------- closed twice

  /** Whatever lands late is a sweep's. */
  ghost predicate OnlySweepsLate(k: Desk, es: seq<Timed>, id: OrderId) {
    es != [] ==>
      && OnlySweepsLate(k, es[..|es| - 1], id)
      && (Late(Run(k, es[..|es| - 1]), es[|es| - 1].e, id) ==> es[|es| - 1].e.decision == Auto(id))
  }

  lemma ClosingsGrow(k: Desk, e: Event, now: int, id: OrderId)
    requires Sound(k) && id in k.book.orders
    ensures Closings(LogOf(Step(k, e, now).book.log, id)) >= Closings(LogOf(k.book.log, id))
  {
    if WritesTo(k, e, id) {
      LogOfSnoc(k.book.log, LoggedAs(e.decision, now), id);
      ClosingsSnoc(LogOf(k.book.log, id), LoggedAs(e.decision, now));
    } else {
      OnlyWritesTouch(k, e, now, id);
    }
  }

  lemma FirstLateClosesTwice(k: Desk, e: Event, now: int, id: OrderId)
    requires Sound(k) && id in k.book.orders && OrderFaithful(k.book, id) && Late(k, e, id) && e.decision == Auto(id)
    ensures Closings(LogOf(Step(k, e, now).book.log, id)) == 2
  {
    LateSweepIff(k.book, id, now);
  }

  lemma {:induction false} LateClosesTwice(k: Desk, es: seq<Timed>, id: OrderId)
    requires Sound(k) && (id in k.book.orders ==> OrderFaithful(k.book, id))
    requires !NeverLate(k, es, id) && OnlySweepsLate(k, es, id)
    ensures id in Run(k, es).book.orders && Closings(LogOf(Run(k, es).book.log, id)) >= 2
    decreases |es|
  {
    var init, last := es[..|es| - 1], es[|es| - 1];
    var y := Run(k, init);
    RunSound(k, init);
    StepSound(y, last.e, last.now);
    if NeverLate(k, init, id) {
      AlwaysFaithfulIff(k, init, id);
      FirstLateClosesTwice(y, last.e, last.now, id);
    } else {
      LateClosesTwice(k, init, id);
      ClosingsGrow(y, last.e, last.now, id);
    }
  }

  /** With operators and technicians in time, however sweeps overlap with them and with each other:
      an order is closed more than once exactly when a sweep's write met it already closed. */
  lemma {:induction false} ClosedTwiceIff(es: seq<Timed>, id: OrderId)
    requires OnlySweepsLate(NEW_DESK, es, id)
    ensures Closings(LogOf(Run(NEW_DESK, es).book.log, id)) >= 2 <==> !NeverLate(NEW_DESK, es, id)
  {
    if NeverLate(NEW_DESK, es, id) {
      RunSound(NEW_DESK, es);
      if id in Run(NEW_DESK, es).book.orders {
        ReplayRebuilds(es, id);
      } else {
        LogOfOthers(Run(NEW_DESK, es).book.log, id);
      }
    } else {
      LateClosesTwice(NEW_DESK, es, id);
    }
  }

  // ---------------------------------------------------------------- sweeps close what they read

  /** How often the log says that a sweep closed the order. */
  function AutoClosings(log: seq<Logged>, id: OrderId): nat {
    if log == [] then 0
    else AutoClosings(log[..|log| - 1], id) + if ClosedBySweep(log[|log| - 1], id) then 1 else 0
  }

  predicate ClosedBySweep(e: Logged, id: OrderId) {
    e.order == id && e.entry.ResolvedEntry? && e.entry.auto
  }

  ghost predicate Finds(k: Desk, e: Event, id: OrderId) {
    e.SweepReads? && id in k.book.orders && Recovered(k.book.orders[id], e.stations)
  }

  /** How many sweeps found the order unfinished and its station back when they read it. */
  ghost function Found(k: Desk, es: seq<Timed>, id: OrderId): nat {
    if es == [] then 0
    else Found(k, es[..|es| - 1], id) + if Finds(Run(k, es[..|es| - 1]), es[|es| - 1].e, id) then 1 else 0
  }

  /** Closings by the sweep made and still to come. */
  ghost function AutoDue(k: Desk, id: OrderId): nat {
    AutoClosings(k.book.log, id) + k.decided[Auto(id)]
  }

  /** Only a sweep decides on an automatic closing. */
  ghost predicate AutoOnly(decided: multiset<Decision>) {
    forall d :: d in decided && d.change.Resolving? && d.change.auto ==> d == Auto(d.order)
  }

  lemma AutoLogged(log: seq<Logged>, e: Logged, id: OrderId)
    ensures AutoClosings(log + [e], id) == AutoClosings(log, id) + if ClosedBySweep(e, id) then 1 else 0
  {
    assert (log + [e])[..|log|] == log;
  }

  lemma OneGone(decided: multiset<Decision>, d: Decision, id: OrderId)
    requires AutoOnly(decided) && d in decided
    ensures AutoOnly(decided - multiset{d})
    ensures (decided - multiset{d})[Auto(id)] ==
      decided[Auto(id)] - if d.order == id && d.change.Resolving? && d.change.auto then 1 else 0
  {
    assert forall other :: other in decided - multiset{d} ==> other in decided;
  }

  lemma AutoRead(k: Desk, stations: map<StationId, C.Station>, id: OrderId)
    requires AutoOnly(k.decided)
    ensures var k' := Step(k, SweepReads(stations), 0);
      AutoOnly(k'.decided) && AutoDue(k', id) == AutoDue(k, id) + if id in Eligible(k.book, stations) then 1 else 0
  {
    AutoAllCounts(Eligible(k.book, stations), id);
  }

  lemma AutoChecked(k: Desk, op: Op, context: Context, id: OrderId)
    requires AutoOnly(k.decided)
    ensures var k' := Step(k, Checks(op, context), 0);
      AutoOnly(k'.decided) && AutoDue(k', id) == AutoDue(k, id)
  {
    if !op.CreateOrder? && FaultOf(k.book, op, context) == None { DecidedTimely(k.book, op, context); }
  }

  lemma AutoCreated(k: Desk, op: Op, context: Context, now: int, id: OrderId)
    ensures var k' := Step(k, Creates(op, context), now);
      k'.decided == k.decided && AutoClosings(k'.book.log, id) == AutoClosings(k.book.log, id)
  {
    if op.CreateOrder? {
      AutoLogged(k.book.log, Logged(k.book.next, op.creator, now, CreatedEntry(op.source, op.priority)), id);
    }
  }

  lemma AutoWritten(k: Desk, d: Decision, now: int, id: OrderId)
    requires AutoOnly(k.decided) && Lands(k, d)
    ensures var k' := Step(k, Writes(d), now);
      AutoOnly(k'.decided) && AutoDue(k', id) == AutoDue(k, id)
  {
    AutoLogged(k.book.log, LoggedAs(d, now), id);
    OneGone(k.decided, d, id);
  }

  lemma AutoStep(k: Desk, e: Event, now: int, id: OrderId)
    requires AutoOnly(k.decided)
    ensures AutoOnly(Step(k, e, now).decided)
    ensures AutoDue(Step(k, e, now), id) == AutoDue(k, id) + if Finds(k, e, id) then 1 else 0
  {
    match e
    case Creates(op, context) => AutoCreated(k, op, context, now, id);
    case Checks(op, context) => AutoChecked(k, op, context, id);
    case SweepReads(stations) => AutoRead(k, stations, id);
    case Writes(d) => if Lands(k, d) { AutoWritten(k, d, now, id); }
  }

  /** Every automatic closing, made or still to come, goes back to one read of one sweep that found
      the order unfinished and its station back, and each such read leads to one. */
  lemma {:induction false} SweepConservation(es: seq<Timed>, id: OrderId)
    ensures AutoDue(Run(NEW_DESK, es), id) == Found(NEW_DESK, es, id) && AutoOnly(Run(NEW_DESK, es).decided)
    decreases |es|
  {
    if es != [] {
      SweepConservation(es[..|es| - 1], id);
      RunSound(NEW_DESK, es[..|es| - 1]);
      AutoStep(Run(NEW_DESK, es[..|es| - 1]), es[|es| - 1].e, es[|es| - 1].now, id);
    }
  }

  // ---------------------------------------------------------------- what is final

  ghost predicate NothingDecided(k: Desk, id: OrderId) {
    forall d :: d in k.decided ==> d.order != id
  }

  lemma ClosedStep(k: Desk, e: Event, now: int, id: OrderId)
    requires Sound(k) && id in k.book.orders && Closed(k.book.orders[id].status) && NothingDecided(k, id)
    ensures Untouched(k.book, Step(k, e, now).book, id) && NothingDecided(Step(k, e, now), id)
  {
    OnlyWritesTouch(k, e, now, id);
    match e
    case Creates(_, _) =>
    case Checks(op, context) =>
      if !op.CreateOrder? && FaultOf(k.book, op, context) == None { DecidedTimely(k.book, op, context); }
    case SweepReads(stations) => AutoAllCounts(Eligible(k.book, stations), id);
    case Writes(_) =>
  }

  lemma {:induction false} ClosedRun(k: Desk, es: seq<Timed>, id: OrderId)
    requires Sound(k) && id in k.book.orders && Closed(k.book.orders[id].status) && NothingDecided(k, id)
    ensures Untouched(k.book, Run(k, es).book, id) && NothingDecided(Run(k, es), id)
    decreases |es|
  {
    if es != [] {
      ClosedRun(k, es[..|es| - 1], id);
      RunSound(k, es[..|es| - 1]);
      ClosedStep(Run(k, es[..|es| - 1]), es[|es| - 1].e, es[|es| - 1].now, id);
    }
  }

  /** A closed order is final, whatever follows, exactly when no write to it is still to land. */
  lemma {:induction false} ClosedIsFinalIff(k: Desk, id: OrderId)
    requires Sound(k) && id in k.book.orders && Closed(k.book.orders[id].status)
    ensures (forall es :: Untouched(k.book, Run(k, es).book, id)) <==> NothingDecided(k, id)
  {
    if NothingDecided(k, id) {
      forall es ensures Untouched(k.book, Run(k, es).book, id) {
        ClosedRun(k, es, id);
      }
    } else {
      var d :| d in k.decided && d.order == id;
      RunThen(k, [], Writes(d), 0);
      LogOfSnoc(k.book.log, LoggedAs(d, 0), id);
      assert !Untouched(k.book, Run(k, [] + [Timed.Timed(Writes(d), 0)]).book, id);
    }
  }

  // ---------------------------------------------------------------- nobody in between

  /** An operation's check and its write, with nothing in between. */
  lemma Uninterrupted(k: Desk, op: Op, context: Context, now: int)
    requires !op.CreateOrder? && FaultOf(k.book, op, context) == None
    ensures var d := DecisionOf(op, k.book.orders[op.id]);
      Step(Step(k, Checks(op, context), now), Writes(d), now) == k.(book := Apply(k.book, op, context, now))
  {
    var d := DecisionOf(op, k.book.orders[op.id]);
    DecidedTimely(k.book, op, context);
    assert k.decided + multiset{d} - multiset{d} == k.decided;
  }

  ghost function SweepWrites(ids: seq<OrderId>, now: int): seq<Timed> {
    if ids == [] then [] else SweepWrites(ids[..|ids| - 1], now) + [Timed.Timed(Writes(Auto(ids[|ids| - 1])), now)]
  }

  function Members(ids: seq<OrderId>): set<OrderId> {
    set id | id in ids
  }

  lemma AutoAllWithout(ids: set<OrderId>, id: OrderId)
    requires id in ids
    ensures AutoAll(ids) - multiset{Auto(id)} == AutoAll(ids - {id}) && Auto(id) in AutoAll(ids)
  {
    AutoAllCounts(ids, id);
    forall d ensures (AutoAll(ids) - multiset{Auto(id)})[d] == AutoAll(ids - {id})[d] {
      AutoAllCounts(ids, d.order);
      AutoAllCounts(ids - {id}, d.order);
    }
  }

  lemma OneFewer(decided: multiset<Decision>, eligible: set<OrderId>, ids: seq<OrderId>)
    requires ids != [] && ids[|ids| - 1] in eligible && ids[|ids| - 1] !in ids[..|ids| - 1]
    ensures var left := eligible - Members(ids[..|ids| - 1]);
      var last := Auto(ids[|ids| - 1]);
      && last in AutoAll(left)
      && decided + AutoAll(left) - multiset{last} == decided + AutoAll(eligible - Members(ids))
  {
    var init, last := ids[..|ids| - 1], ids[|ids| - 1];
    var left := eligible - Members(init);
    AutoAllWithout(left, last);
    assert left - {last} == eligible - Members(ids);
  }

  /** A sweep's read and its writes, with nothing in between. */
  lemma {:induction false} UninterruptedSweep(k: Desk, stations: map<StationId, C.Station>, ids: seq<OrderId>, at: int,
                                              now: int)
    requires forall i :: 0 <= i < |ids| ==> ids[i] in Eligible(k.book, stations)
    requires forall i, j :: 0 <= i < j < |ids| ==> ids[i] != ids[j]
    ensures Run(Step(k, SweepReads(stations), at), SweepWrites(ids, now))
         == Desk(ResolveEach(k.book, ids, now), k.decided + AutoAll(Eligible(k.book, stations) - Members(ids)))
    decreases |ids|
  {
    var eligible := Eligible(k.book, stations);
    if ids == [] {
      assert eligible - Members(ids) == eligible;
    } else {
      var init, last := ids[..|ids| - 1], ids[|ids| - 1];
      UninterruptedSweep(k, stations, init, at, now);
      RunThen(Step(k, SweepReads(stations), at), SweepWrites(init, now), Writes(Auto(last)), now);
      OneFewer(k.decided, eligible, ids);
    }
  }

  // ---------------------------------------------------------------- the two ways a closed order changes

  function Cancels(id: OrderId, reason: string, actor: Option<MemberId>): Decision {
    Decision(id, actor, Cancelling(reason))
  }

  function CancelOp(id: OrderId, reason: string, actor: Option<MemberId>): Op {
    Operate(id, Cancel, None, Some(reason), actor)
  }

  /** An operator cancels an unfinished order; other writes decided before are still to land. */
  lemma CancelLands(k: Desk, id: OrderId, reason: string, actor: Option<MemberId>, context: Context, now: int)
    requires id in k.book.orders && OrderFaithful(k.book, id) && !Closed(k.book.orders[id].status) && reason != ""
    ensures var k' := Step(Step(k, Checks(CancelOp(id, reason, actor), context), now),
      Writes(Cancels(id, reason, actor)), now);
      && k'.decided == k.decided && id in k'.book.orders && k'.book.orders[id].status == Cancelled
      && OrderFaithful(k'.book, id)
  {
    Uninterrupted(k, CancelOp(id, reason, actor), context, now);
    LateWriteIff(k.book, Cancels(id, reason, actor), now);
  }

  /** A sweep reads an unfinished order whose station is back; an operator cancels it; the sweep's write
      lands: the order is closed twice and its log is illegal. */
  lemma SweepClosesAgain(k: Desk, stations: map<StationId, C.Station>, id: OrderId, reason: string,
                         actor: Option<MemberId>, context: Context, now: int)
    requires id in Eligible(k.book, stations) && OrderFaithful(k.book, id) && reason != ""
    ensures var k1 := Step(k, SweepReads(stations), now);
      var k2 := Step(k1, Checks(CancelOp(id, reason, actor), context), now);
      var k3 := Step(k2, Writes(Cancels(id, reason, actor)), now);
      var k4 := Step(k3, Writes(Auto(id)), now);
      && id in k3.book.orders && k3.book.orders[id].status == Cancelled && Late(k3, Writes(Auto(id)), id)
      && id in k4.book.orders && k4.book.orders[id].status == Resolved
      && Closings(LogOf(k4.book.log, id)) == 2 && Illegal(k4.book, id)
  {
    var k1 := Step(k, SweepReads(stations), now);
    AutoAllCounts(Eligible(k.book, stations), id);
    assert Auto(id) in k1.decided;
    CancelLands(k1, id, reason, actor, context, now);
    var k2 := Step(k1, Checks(CancelOp(id, reason, actor), context), now);
    var k3 := Step(k2, Writes(Cancels(id, reason, actor)), now);
    LateSweepIff(k3.book, id, now);
    LateIsIllegal(k3.book, Auto(id), now);
  }

  lemma StartDecided(k: Desk, id: OrderId, technician: MemberId, context: Context, now: int)
    requires id in k.book.orders && k.book.orders[id].status == Assigned
    requires k.book.orders[id].assignee == Some(technician)
    ensures Step(k, Checks(Work(id, technician, Start, None), context), now)
         == k.(decided := k.decided + multiset{Decision(id, Some(technician), Starting)})
  {
  }

  /** A start that lands on a closed order puts it back to work and leaves its log illegal. */
  lemma StartLandsClosed(k: Desk, id: OrderId, technician: MemberId, now: int)
    requires id in k.book.orders && OrderFaithful(k.book, id) && Closed(k.book.orders[id].status)
    requires Decision(id, Some(technician), Starting) in k.decided
    ensures var k' := Step(k, Writes(Decision(id, Some(technician), Starting)), now);
      id in k'.book.orders && k'.book.orders[id].status == InProgress && Illegal(k'.book, id)
  {
    LateIsIllegal(k.book, Decision(id, Some(technician), Starting), now);
  }

  /** And one that was cancelled is opened again by a technician's start that had been checked before. */
  lemma LateStartReopens(k: Desk, id: OrderId, technician: MemberId, reason: string, actor: Option<MemberId>,
                         context: Context, now: int)
    requires id in k.book.orders && OrderFaithful(k.book, id) && reason != ""
    requires k.book.orders[id].status == Assigned && k.book.orders[id].assignee == Some(technician)
    ensures var k1 := Step(k, Checks(Work(id, technician, Start, None), context), now);
      var k2 := Step(k1, Checks(CancelOp(id, reason, actor), context), now);
      var k3 := Step(k2, Writes(Cancels(id, reason, actor)), now);
      var k4 := Step(k3, Writes(Decision(id, Some(technician), Starting)), now);
      && id in k3.book.orders && k3.book.orders[id].status == Cancelled
      && id in k4.book.orders && k4.book.orders[id].status == InProgress && Illegal(k4.book, id)
  {
    StartDecided(k, id, technician, context, now);
    var k1 := Step(k, Checks(Work(id, technician, Start, None), context), now);
    CancelLands(k1, id, reason, actor, context, now);
    var k2 := Step(k1, Checks(CancelOp(id, reason, actor), context), now);
    StartLandsClosed(Step(k2, Writes(Cancels(id, reason, actor)), now), id, technician, now);
  }
}
