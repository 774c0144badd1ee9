/** Where every log entry comes from: an operation whose checks passed when it was read, asked for by
    the member the entry names, and a write at the time the entry carries. */
module WorkOrderHistory {
  import opened Common
  import opened WorkOrders
  import opened WorkOrderDesk

  /** Who asks for the operation. */
  function AskedBy(op: Op): Option<MemberId> {
    match op
    case CreateOrder(_, _, _, _, creator) => creator
    case Operate(_, _, _, _, actor) => actor
    case Work(_, technician, _, _) => Some(technician)
    case Schedule(_, _, scheduler) => Some(scheduler)
    case RecordEvidence(_, technician, _) => Some(technician)
  }

  /** A technician asks, and the order is not theirs. */
  predicate OnAnothersOrder(o: Order, op: Op) {
    (op.Work? || op.RecordEvidence?) && o.assignee != Some(op.technician)
  }

  /** What the operation asks to be written, as its entry says it. */
  predicate SaidBy(op: Op, e: Entry) {
    match op
    case Operate(_, transition, member, comment, _) => TransitionSays(transition, member, comment, e)
    case Work(_, _, transition, comment) => TransitionSays(transition, None, comment, e)
    case Schedule(_, at, _) => e == ScheduledEntry(at)
    case RecordEvidence(_, _, evidence) => e == EvidenceEntry(evidence)
    case CreateOrder(_, source, priority, _, _) => e == CreatedEntry(source, priority)
  }

  predicate TransitionSays(transition: Transition, member: Option<MemberId>, comment: Option<string>, e: Entry) {
    match transition
    case Assign => member.Some? && e == AssignedEntry(member.value)
    case Start => e == StartedEntry
    case Comment => comment.Some? && e == CommentedEntry(comment.value)
    case Resolve => comment.Some? && e == ResolvedEntry(comment.value, false)
    case Cancel => comment.Some? && e == CancelledEntry(comment.value)
  }

  /** At that moment the operation's checks passed and the decision is what it came to; or a sweep found
      the order. */
  ghost predicate DecidedAt(es: seq<WorkOrderDesk.Timed>, j: int, d: Decision) {
    && 0 <= j < |es|
    && var b := WorkOrderDesk.Run(NEW_DESK, es[..j]).book;
    && d.order in b.orders
    && match es[j].e
       case Checks(op, context) =>
         && !op.CreateOrder? && op.id == d.order && d.actor == AskedBy(op) && SaidBy(op, EntryOf(d.change))
         && FaultOf(b, op, context) == None && !OnAnothersOrder(b.orders[op.id], op)
       case SweepReads(stations) => d == Auto(d.order) && Recovered(b.orders[d.order], stations)
       case _ => false
  }

  ghost predicate CreatedAt(es: seq<WorkOrderDesk.Timed>, j: int, id: OrderId, o: Order) {
    && 0 <= j < |es| && es[j].e.Creates? && es[j].e.op.CreateOrder?
    && var op, b := es[j].e.op, WorkOrderDesk.Run(NEW_DESK, es[..j]).book;
    && b.next == id && op.station in es[j].e.context.stations
    && o.station == op.station && o.source == op.source && o.priority == op.priority && o.createdAt == es[j].now
  }

  /** The entry was written at its time by a decision made before, or records a creation. */
  ghost predicate WrittenAt(es: seq<WorkOrderDesk.Timed>, i: int, e: Logged) {
    && 0 <= i < |es| && es[i].now == e.at
    && match es[i].e
       case Writes(d) => e == LoggedAs(d, es[i].now) && exists j :: 0 <= j < i && DecidedAt(es, j, d)
       case Creates(op, _) =>
         op.CreateOrder? && e.entry == CreatedEntry(op.source, op.priority) && e.actor == op.creator
         && e.order == WorkOrderDesk.Run(NEW_DESK, es[..i]).book.next
       case _ => false
  }

  // ---------------------------------------------------------------- decisions

  lemma CheckedIsSaid(b: Book, op: Op, context: Context)
    requires !op.CreateOrder? && FaultOf(b, op, context) == None
    ensures op.id in b.orders && !OnAnothersOrder(b.orders[op.id], op)
    ensures var d := DecisionOf(op, b.orders[op.id]);
      d.order == op.id && d.actor == AskedBy(op) && SaidBy(op, EntryOf(d.change))
  {
  }

  lemma DecidedLater(es: seq<WorkOrderDesk.Timed>, j: int, d: Decision)
    requires es != [] && DecidedAt(es[..|es| - 1], j, d)
    ensures DecidedAt(es, j, d)
  {
    assert es[..|es| - 1][..j] == es[..j];
  }

  lemma JustDecided(es: seq<WorkOrderDesk.Timed>, d: Decision)
    requires es != []
    requires d in WorkOrderDesk.Run(NEW_DESK, es).decided && d !in WorkOrderDesk.Run(NEW_DESK, es[..|es| - 1]).decided
    ensures DecidedAt(es, |es| - 1, d)
  {
    var k, e := WorkOrderDesk.Run(NEW_DESK, es[..|es| - 1]), es[|es| - 1].e;
    match e
    case Checks(op, context) => CheckedIsSaid(k.book, op, context);
    case SweepReads(stations) => AutoAllCounts(Eligible(k.book, stations), d.order);
    case Writes(written) => WritingDecidesNothing(k, written, es[|es| - 1].now, d);
    case Creates(_, _) =>
  }

  lemma WritingDecidesNothing(k: Desk, written: Decision, now: int, d: Decision)
    ensures d in WorkOrderDesk.Step(k, Writes(written), now).decided ==> d in k.decided
  {
  }

  /** Every write still to land was decided like that. */
  lemma {:induction false} DecidedBefore(es: seq<WorkOrderDesk.Timed>, d: Decision) returns (j: int)
    requires d in WorkOrderDesk.Run(NEW_DESK, es).decided
    ensures DecidedAt(es, j, d)
    decreases |es|
  {
    if d in WorkOrderDesk.Run(NEW_DESK, es[..|es| - 1]).decided {
      j := DecidedBefore(es[..|es| - 1], d);
      DecidedLater(es, j, d);
    } else {
      j := |es| - 1;
      JustDecided(es, d);
    }
  }

  // ---------------------------------------------------------------- entries

  lemma WrittenLater(es: seq<WorkOrderDesk.Timed>, i: int, e: Logged)
    requires es != [] && WrittenAt(es[..|es| - 1], i, e)
    ensures WrittenAt(es, i, e)
  {
    var init := es[..|es| - 1];
    assert init[..i] == es[..i];
    if init[i].e.Writes? {
      var j :| 0 <= j < i && DecidedAt(init, j, init[i].e.decision);
      DecidedLater(es, j, init[i].e.decision);
    }
  }

  /** A step logs nothing, or the one entry of its write or creation. */
  lemma LogAfter(k: Desk, e: WorkOrderDesk.Event, now: int)
    ensures var log, log' := k.book.log, WorkOrderDesk.Step(k, e, now).book.log;
      || log' == log
      || (e.Writes? && e.decision in k.decided && log' == log + [LoggedAs(e.decision, now)])
      || (e.Creates? && e.op.CreateOrder?
          && log' == log + [Logged(k.book.next, e.op.creator, now, CreatedEntry(e.op.source, e.op.priority))])
  {
  }

  lemma DecidedInTime(es: seq<WorkOrderDesk.Timed>, d: Decision)
    requires es != [] && d in WorkOrderDesk.Run(NEW_DESK, es[..|es| - 1]).decided
    ensures exists j :: 0 <= j < |es| - 1 && DecidedAt(es, j, d)
  {
    var j := DecidedBefore(es[..|es| - 1], d);
    DecidedLater(es, j, d);
  }

  lemma WriteAccounted(es: seq<WorkOrderDesk.Timed>)
    requires es != [] && es[|es| - 1].e.Writes?
    requires es[|es| - 1].e.decision in WorkOrderDesk.Run(NEW_DESK, es[..|es| - 1]).decided
    ensures WrittenAt(es, |es| - 1, LoggedAs(es[|es| - 1].e.decision, es[|es| - 1].now))
  {
    DecidedInTime(es, es[|es| - 1].e.decision);
  }

  lemma JustWritten(es: seq<WorkOrderDesk.Timed>)
    requires es != []
    ensures var log, log' := WorkOrderDesk.Run(NEW_DESK, es[..|es| - 1]).book.log,
      WorkOrderDesk.Run(NEW_DESK, es).book.log;
      log' == log || (|log'| == |log| + 1 && log' == log + [log'[|log|]] && WrittenAt(es, |es| - 1, log'[|log|]))
  {
    var k, last := WorkOrderDesk.Run(NEW_DESK, es[..|es| - 1]), es[|es| - 1];
    LogAfter(k, last.e, last.now);
    if last.e.Writes? && last.e.decision in k.decided { WriteAccounted(es); }
  }

  /** In every run every log entry was written at its time by a decision whose checks had passed before,
      asked for by the member it names; a technician's was decided while the order was their own. */
  lemma {:induction false} EntryIsAccountedFor(es: seq<WorkOrderDesk.Timed>, n: nat) returns (i: int)
    requires n < |WorkOrderDesk.Run(NEW_DESK, es).book.log|
    ensures WrittenAt(es, i, WorkOrderDesk.Run(NEW_DESK, es).book.log[n])
    decreases |es|
  {
    JustWritten(es);
    var log := WorkOrderDesk.Run(NEW_DESK, es[..|es| - 1]).book.log;
    if n < |log| {
      i := EntryIsAccountedFor(es[..|es| - 1], n);
      WrittenLater(es, i, log[n]);
    } else {
      i := |es| - 1;
    }
  }

  /** And every order's station, source, priority and creation time are those it was created with. */
  lemma {:induction false} OrderIsAccountedFor(es: seq<WorkOrderDesk.Timed>, id: OrderId) returns (j: int)
    requires id in WorkOrderDesk.Run(NEW_DESK, es).book.orders
    ensures CreatedAt(es, j, id, WorkOrderDesk.Run(NEW_DESK, es).book.orders[id])
    decreases |es|
  {
    var init, last := es[..|es| - 1], es[|es| - 1];
    var k := WorkOrderDesk.Run(NEW_DESK, init);
    if id in k.book.orders {
      j := OrderIsAccountedFor(init, id);
      WorkOrderDesk.RunSound(NEW_DESK, init);
      StaysAsCreated(k, last.e, last.now, id);
      assert init[..j] == es[..j];
    } else {
      BornByCreate(k, last.e, last.now, id);
      OthersAdmittedIff(k.book, last.e.op, last.e.context, last.now);
      j := |init|;
    }
  }

  lemma StaysAsCreated(k: Desk, e: WorkOrderDesk.Event, now: int, id: OrderId)
    requires WorkOrderDesk.Sound(k) && id in k.book.orders
    ensures var b' := WorkOrderDesk.Step(k, e, now).book;
      && id in b'.orders && b'.orders[id].station == k.book.orders[id].station
      && b'.orders[id].source == k.book.orders[id].source && b'.orders[id].priority == k.book.orders[id].priority
      && b'.orders[id].createdAt == k.book.orders[id].createdAt
  {
    if !WritesTo(k, e, id) { OnlyWritesTouch(k, e, now, id); }
  }
}
