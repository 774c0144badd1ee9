/** The work-order services over the shared order and event tables. */
module WorkOrderServices {
  import opened Common
  import opened Ascii
  import C = Connectivity
  import opened WorkOrders

  class OrderTables {
    var orders: map<OrderId, Order>
    var log: seq<Logged>
    var next: OrderId

    ghost function Contents(): Book
      reads this
    {
      Book(orders, log, next)
    }

    constructor ()
      ensures Contents() == NO_ORDERS && Faithful(Contents())
    {
      orders, log, next := map[], [], 0;
    }

    method Update(id: OrderId, o: Order)
      modifies this`orders
      ensures orders == old(orders)[id := o]
    {
      orders := orders[id := o];
    }

    method AppendEvent(id: OrderId, actor: Option<MemberId>, entry: Entry, now: int)
      modifies this`log
      ensures log == old(log) + [Logged(id, actor, now, entry)]
    {
      log := log + [Logged(id, actor, now, entry)];
    }
  }

  class WorkOrderService {
    const tables: OrderTables

    constructor (tables: OrderTables)
      ensures this.tables == tables
    {
      this.tables := tables;
    }

    method Create(op: Op, context: Context, now: int) returns (fault: Option<Fault>)
      requires op.CreateOrder?
      modifies tables
      ensures fault == FaultOf(old(tables.Contents()), op, context)
      ensures tables.Contents() == Apply(old(tables.Contents()), op, context, now)
      ensures old(Faithful(tables.Contents())) ==> Faithful(tables.Contents())
    {
      KeepsFaithful(tables.Contents(), op, context, now);
      if op.station !in context.stations { return Some(StationMissing); }
      var id := tables.next;
      tables.Update(id, Order(op.station, op.source, op.priority, Open, None, None, op.planned, now, None, None, None));
      tables.next := id + 1;
      tables.AppendEvent(id, op.creator, CreatedEntry(op.source, op.priority), now);
      fault := None;
    }

    /** The first check that fails; none does exactly when the log entry would be legal next and an
        assignment names an active member. */
    method CheckTransition(o: Order, transition: Transition, member: Option<MemberId>, comment: Option<string>,
                           context: Context)
      returns (fault: Option<Fault>)
      ensures fault == TransitionFault(o, transition, member, comment, context)
      ensures forall id, actor, now :: fault == None <==>
        && (transition.Assign? ==> member.Some? && member.value in context.members)
        && LegalNext(ViewOf(o),
          LoggedAs(Decision(id, actor, TransitionChange(o.status, transition, member, comment)), now))
    {
      forall id, actor, now ensures TransitionFault(o, transition, member, comment, context) == None <==>
        && (transition.Assign? ==> member.Some? && member.value in context.members)
        && LegalNext(ViewOf(o),
          LoggedAs(Decision(id, actor, TransitionChange(o.status, transition, member, comment)), now))
      {
        AcceptedIffLegal(o, id, transition, member, comment, actor, context, now);
      }
      if transition !in ValidTransitions(o.status) { return Some(InvalidTransition); }
      if transition == Assign {
        if member.None? { return Some(AssigneeRequired); }
        if member.value !in context.members { return Some(AssigneeInactive); }
      }
      if (transition == Resolve || transition == Cancel) && Text(comment) == "" { return Some(CommentRequired); }
      if transition == Resolve && |Trim(Text(comment))| < RESOLUTION_SUMMARY_MIN_LENGTH {
        return Some(SummaryTooShort);
      }
      if transition == Comment && Text(comment) == "" { return Some(CommentRequired); }
      fault := None;
    }

    /** An operator's transition that nobody interrupts. */
    method Perform(id: OrderId, transition: Transition, member: Option<MemberId>, comment: Option<string>,
                   actor: Option<MemberId>, context: Context, now: int)
      returns (fault: Option<Fault>)
      modifies tables
      ensures fault == FaultOf(old(tables.Contents()), Operate(id, transition, member, comment, actor), context)
      ensures tables.Contents() ==
        Apply(old(tables.Contents()), Operate(id, transition, member, comment, actor), context, now)
      ensures old(Faithful(tables.Contents())) ==> Faithful(tables.Contents())
    {
      KeepsFaithful(tables.Contents(), Operate(id, transition, member, comment, actor), context, now);
      if id !in tables.orders { return Some(NotFound); }
      fault := CheckTransition(tables.orders[id], transition, member, comment, context);
      if fault.None? { ApplyTransition(id, tables.orders[id].status, transition, member, comment, actor, now); }
    }

    /** The write alone, whatever has become of the row since its status was read. */
    method ApplyTransition(id: OrderId, seen: OrderStatus, transition: Transition, member: Option<MemberId>,
                           comment: Option<string>, actor: Option<MemberId>, now: int)
      requires id in tables.orders && (transition.Assign? ==> member.Some?)
      requires transition.Comment? || transition.Resolve? || transition.Cancel? ==> comment.Some?
      modifies tables
      ensures tables.Contents() ==
        WriteDecided(old(tables.Contents()),
          Decision(id, actor, TransitionChange(seen, transition, member, comment)), now)
    {
      var o := tables.orders[id];
      match transition {
        case Assign =>
          var status := if seen == Open then Assigned else seen;
          tables.Update(id, o.(status := status, assignee := member, assignedAt := Some(now)));
          tables.AppendEvent(id, actor, AssignedEntry(member.value), now);
        case Start =>
          tables.Update(id, o.(status := InProgress, startedAt := Some(now)));
          tables.AppendEvent(id, actor, StartedEntry, now);
        case Comment =>
          tables.Update(id, o.(notes := comment));
          tables.AppendEvent(id, actor, CommentedEntry(comment.value), now);
        case Resolve =>
          tables.Update(id, o.(status := Resolved, resolvedAt := Some(now), notes := comment));
          tables.AppendEvent(id, actor, ResolvedEntry(comment.value, false), now);
        case Cancel =>
          tables.Update(id, o.(status := Cancelled, notes := comment));
          tables.AppendEvent(id, actor, CancelledEntry(comment.value), now);
      }
    }

    method PlanVisit(id: OrderId, at: Option<int>, scheduler: MemberId, context: Context, now: int)
      returns (fault: Option<Fault>)
      modifies tables
      ensures fault == FaultOf(old(tables.Contents()), Schedule(id, at, scheduler), context)
      ensures tables.Contents() == Apply(old(tables.Contents()), Schedule(id, at, scheduler), context, now)
      ensures old(Faithful(tables.Contents())) ==> Faithful(tables.Contents())
    {
      if id !in tables.orders { return Some(NotFound); }
      var o := tables.orders[id];
      if o.status == Resolved || o.status == Cancelled { return Some(OrderClosed); }
      KeepsFaithful(tables.Contents(), Schedule(id, at, scheduler), context, now);
      ghost var was := tables.Contents();
      tables.Update(id, o.(scheduledAt := at));
      tables.AppendEvent(id, Some(scheduler), ScheduledEntry(at), now);
      assert tables.Contents() == Apply(was, Schedule(id, at, scheduler), context, now);
      fault := None;
    }

    /** A sweep that nobody interrupts: reads the candidates, then closes those whose station is back;
        the result lists them. */
    method ResolveRecoveredConnectivityWorkOrders(stations: map<StationId, C.Station>,
                                                  now: int)
      returns (resolved: seq<OrderId>)
      modifies tables
      ensures Lists(resolved, Eligible(old(tables.Contents()), stations))
      ensures tables.Contents() == ResolveEach(old(tables.Contents()), resolved, now)
      ensures old(Faithful(tables.Contents())) ==> Faithful(tables.Contents())
    {
      ghost var was := tables.Contents();
      var snapshot := tables.orders;
      var candidates := set id | id in snapshot && snapshot[id].source == ConnectivityLoss
        && !Closed(snapshot[id].status);
      var remaining := candidates;
      resolved := [];
      while remaining != {}
        invariant remaining <= candidates
        invariant SweptSoFar(was, resolved, stations, candidates - remaining, now, tables.Contents())
        decreases remaining
      {
        var id :| id in remaining;
        ghost var seen := candidates - remaining;
        resolved := VisitCandidate(id, snapshot[id], resolved, stations, was, seen, now);
        remaining := remaining - {id};
        assert candidates - remaining == seen + {id};
      }
      assert candidates - remaining == candidates;
      ListedAll(resolved, was, stations, candidates);
      if Faithful(was) { SweepFaithful(was, resolved, now); }
    }

    method VisitCandidate(id: OrderId, o: Order, done: seq<OrderId>, stations: map<StationId, C.Station>,
                          ghost was: Book, ghost seen: set<OrderId>, now: int)
      returns (resolved: seq<OrderId>)
      requires SweptSoFar(was, done, stations, seen, now, tables.Contents())
      requires id in was.orders && o == was.orders[id] && id !in seen
      requires o.source == ConnectivityLoss && !Closed(o.status)
      modifies tables
      ensures SweptSoFar(was, resolved, stations, seen + {id}, now, tables.Contents())
    {
      ListNext(done, was, stations, seen, id);
      resolved := done;
      if IsBack(o, stations) {
        ResolvedNext(was, done, id, now);
        CloseRecovered(id, now);
        resolved := done + [id];
      }
    }

    /** The sweep's write alone, whatever has become of the order since it was read. */
    method CloseRecovered(id: OrderId, now: int)
      requires id in tables.orders
      modifies tables
      ensures tables.Contents() == WriteDecided(old(tables.Contents()), Auto(id), now)
    {
      var o := tables.orders[id];
      tables.Update(id, o.(status := Resolved, resolvedAt := Some(now), notes := Some(CONNECTIVITY_RECOVERED_COMMENT)));
      tables.AppendEvent(id, None, ResolvedEntry(CONNECTIVITY_RECOVERED_COMMENT, true), now);
    }
  }

  lemma KeepsFaithful(b: Book, op: Op, context: Context, now: int)
    ensures Faithful(b) ==> Faithful(Apply(b, op, context, now))
  {
    if Faithful(b) { ApplyFaithful(b, op, context, now); }
  }

  /** The eligible orders among those looked at, once each. */
  ghost predicate ListedAmong(ids: seq<OrderId>, b: Book, stations: map<StationId, C.Station>, seen: set<OrderId>) {
    && Lists(ids, Eligible(b, stations) * seen)
    && forall k :: 0 <= k < |ids| ==> ids[k] in b.orders
  }

  ghost predicate SweptSoFar(was: Book, ids: seq<OrderId>, stations: map<StationId, C.Station>, seen: set<OrderId>,
                             now: int, b: Book)
  {
    ListedAmong(ids, was, stations, seen) && b == ResolveEach(was, ids, now)
  }

  lemma ListNext(ids: seq<OrderId>, b: Book, stations: map<StationId, C.Station>, seen: set<OrderId>, id: OrderId)
    requires ListedAmong(ids, b, stations, seen) && id !in seen && id in b.orders
    requires b.orders[id].source == ConnectivityLoss && !Closed(b.orders[id].status)
    ensures ListedAmong(if IsBack(b.orders[id], stations) then ids + [id] else ids, b, stations, seen + {id})
  {
    assert IsBack(b.orders[id], stations) <==> id in Eligible(b, stations);
    if IsBack(b.orders[id], stations) {
      assert Eligible(b, stations) * (seen + {id}) == Eligible(b, stations) * seen + {id};
    } else {
      assert Eligible(b, stations) * (seen + {id}) == Eligible(b, stations) * seen;
    }
  }

  lemma ListedAll(ids: seq<OrderId>, b: Book, stations: map<StationId, C.Station>, candidates: set<OrderId>)
    requires ListedAmong(ids, b, stations, candidates)
    requires candidates ==
      set id | id in b.orders && b.orders[id].source == ConnectivityLoss && !Closed(b.orders[id].status)
    ensures Lists(ids, Eligible(b, stations))
    ensures forall k :: 0 <= k < |ids| ==> ids[k] in b.orders && !Closed(b.orders[ids[k]].status)
  {
    assert Eligible(b, stations) * candidates == Eligible(b, stations);
  }

  lemma ResolvedNext(b: Book, ids: seq<OrderId>, id: OrderId, now: int)
    requires (forall k :: 0 <= k < |ids| ==> ids[k] in b.orders) && id in b.orders && id !in ids
    requires forall k, l :: 0 <= k < l < |ids| ==> ids[k] != ids[l]
    ensures ResolveEach(b, ids, now).orders[id] == b.orders[id]
    ensures ResolveEach(b, ids + [id], now) == WriteDecided(ResolveEach(b, ids, now), Auto(id), now)
  {
    ResolveEachIs(b, ids, now, id);
    assert (ids + [id])[..|ids|] == ids;
  }

  class MyWorkService {
    const tables: OrderTables
    const workOrders: WorkOrderService

    constructor (tables: OrderTables, workOrders: WorkOrderService)
      ensures this.tables == tables && this.workOrders == workOrders
    {
      this.tables, this.workOrders := tables, workOrders;
    }

    /** A technician's transition: a few kinds only, on an own order only. */
    method Perform(id: OrderId, technician: MemberId, transition: Transition, comment: Option<string>, context: Context,
                   now: int)
      returns (fault: Option<Fault>)
      requires workOrders.tables == tables
      modifies tables
      ensures fault == FaultOf(old(tables.Contents()), Work(id, technician, transition, comment), context)
      ensures tables.Contents() ==
        Apply(old(tables.Contents()), Work(id, technician, transition, comment), context, now)
      ensures old(Faithful(tables.Contents())) ==> Faithful(tables.Contents())
    {
      if transition !in {Start, Comment, Resolve} { return Some(NotAllowedHere); }
      if id !in tables.orders || tables.orders[id].assignee != Some(technician) { return Some(NotFound); }
      fault := workOrders.Perform(id, transition, None, comment, Some(technician), context, now);
    }

    method RecordChecklistEvent(id: OrderId, technician: MemberId, evidence: Evidence, context: Context, now: int)
      returns (fault: Option<Fault>)
      modifies tables
      ensures fault == FaultOf(old(tables.Contents()), RecordEvidence(id, technician, evidence), context)
      ensures tables.Contents() == Apply(old(tables.Contents()), RecordEvidence(id, technician, evidence), context, now)
      ensures old(Faithful(tables.Contents())) ==> Faithful(tables.Contents())
    {
      KeepsFaithful(tables.Contents(), RecordEvidence(id, technician, evidence), context, now);
      if id !in tables.orders || tables.orders[id].assignee != Some(technician) { return Some(NotFound); }
      if Closed(tables.orders[id].status) { return Some(OrderClosed); }
      fault := EvidenceFault(evidence);
      if fault.None? {
        tables.AppendEvent(id, Some(technician), EvidenceEntry(evidence), now);
        assert tables.orders[id := tables.orders[id]] == tables.orders;
      }
    }
  }

  // ---------------------------------------------------------------- orders that need attention

  datatype AttentionReason = HighPriorityUnresolved | ScheduledOverdue | Unassigned | StalledInProgress

  const IN_PROGRESS_STALL_MS := 4 * 60 * 60 * 1000

  /** The four conditions the listing query joins with OR. */
  predicate NeedsAttention(o: Order, now: int) {
    || (o.priority in {High, Critical} && !Closed(o.status))
    || (o.scheduledAt.Some? && o.scheduledAt.value < now && !Closed(o.status))
    || (o.status == Open && o.assignee == None)
    || (o.status == InProgress && o.startedAt.Some? && o.startedAt.value < now - IN_PROGRESS_STALL_MS)
  }

  /** The reasons say exactly which conditions hold, each once, in a fixed order; so an order is
      listed exactly when it has a reason. */
  method ComputeAttentionReasons(o: Order, now: int) returns (reasons: seq<AttentionReason>)
    ensures HighPriorityUnresolved in reasons <==> o.priority in {High, Critical} && !Closed(o.status)
    ensures ScheduledOverdue in reasons <==> o.scheduledAt.Some? && o.scheduledAt.value < now && !Closed(o.status)
    ensures Unassigned in reasons <==> o.status == Open && o.assignee == None
    ensures StalledInProgress in reasons <==>
      o.status == InProgress && o.startedAt.Some? && o.startedAt.value < now - 4 * 60 * 60 * 1000
    ensures NeedsAttention(o, now) <==> reasons != []
    ensures forall k, l :: 0 <= k < l < |reasons| ==> ReasonRank(reasons[k]) < ReasonRank(reasons[l])
  {
    reasons := [];
    var notTerminal := !Closed(o.status);
    if notTerminal && (o.priority == High || o.priority == Critical) { reasons := reasons + [HighPriorityUnresolved]; }
    if notTerminal && o.scheduledAt.Some? && o.scheduledAt.value < now { reasons := reasons + [ScheduledOverdue]; }
    if o.status == Open && o.assignee.None? { reasons := reasons + [Unassigned]; }
    if o.status == InProgress && o.startedAt.Some? && o.startedAt.value < now - IN_PROGRESS_STALL_MS {
      reasons := reasons + [StalledInProgress];
    }
  }

  function ReasonRank(r: AttentionReason): nat {
    match r
    case HighPriorityUnresolved => 0
    case ScheduledOverdue => 1
    case Unassigned => 2
    case StalledInProgress => 3
  }
}
