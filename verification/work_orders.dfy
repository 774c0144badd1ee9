/** Work orders: rows updated in place beside an append-only event log. Three writers share them:
    operators, technicians and the automatic recovery sweep.

    A writer reads and checks first and writes later, without looking again; others write in
    between. A row write and its log entry are one step. */
module WorkOrders {
  import opened Common
  import opened Ascii
  import C = Connectivity

  type StationId = nat
  type OrderId = nat
  type MemberId = nat

  datatype OrderStatus = Open | Assigned | InProgress | Resolved | Cancelled

  datatype Source = ConnectivityLoss | Recommendation | Manual

  datatype Priority = Low | Medium | High | Critical

  datatype Order = Order(
    station: StationId, source: Source, priority: Priority, status: OrderStatus,
    assignee: Option<MemberId>, notes: Option<string>, scheduledAt: Option<int>, createdAt: int,
    assignedAt: Option<int>, startedAt: Option<int>, resolvedAt: Option<int>)

  datatype Evidence =
    | Arrival
    | Diagnosis(finding: string)
    | Intervention(description: string)
    | Validation(outcome: string)

  datatype Entry =
    | CreatedEntry(source: Source, priority: Priority)
    | AssignedEntry(member: MemberId)
    | StartedEntry
    | CommentedEntry(text: string)
    | ResolvedEntry(text: string, auto: bool)
    | CancelledEntry(text: string)
    | ScheduledEntry(at: Option<int>)
    | EvidenceEntry(evidence: Evidence)

  datatype Logged = Logged(order: OrderId, actor: Option<MemberId>, at: int, entry: Entry)

  /** The order table, the event table in insertion order, and the next order's id. */
  datatype Book = Book(orders: map<OrderId, Order>, log: seq<Logged>, next: OrderId)

  datatype Transition = Assign | Start | Comment | Resolve | Cancel

  datatype Op =
    | CreateOrder(station: StationId, source: Source, priority: Priority, planned: Option<int>,
                  creator: Option<MemberId>)
    | Operate(id: OrderId, transition: Transition, member: Option<MemberId>, comment: Option<string>,
              actor: Option<MemberId>)
    | Work(id: OrderId, technician: MemberId, transition: Transition, comment: Option<string>)
    | Schedule(id: OrderId, at: Option<int>, scheduler: MemberId)
    | RecordEvidence(id: OrderId, technician: MemberId, evidence: Evidence)

  datatype Fault =
    | NotFound | StationMissing | NotAllowedHere | InvalidTransition | AssigneeRequired | AssigneeInactive
    | CommentRequired | SummaryTooShort | OrderClosed | EvidenceEmpty

  /** Active members and existing stations of the organization. */
  datatype Context = Context(members: set<MemberId>, stations: set<StationId>)

  const NO_ORDERS := Book(map[], [], 0)

  const RESOLUTION_SUMMARY_MIN_LENGTH := 20
  const CONNECTIVITY_RECOVERED_COMMENT := "Conectividad restablecida automáticamente."

  predicate Closed(s: OrderStatus) {
    s == Resolved || s == Cancelled
  }

  function ValidTransitions(from: OrderStatus): set<Transition> {
    match from
    case Open => {Assign, Comment, Cancel}
    case Assigned => {Assign, Start, Comment, Cancel}
    case InProgress => {Assign, Resolve, Comment, Cancel}
    case Resolved => {}
    case Cancelled => {}
  }

  // ---------------------------------------------------------------- checks, in the order the services make them

  /** A missing comment and an empty one are the same thing. */
  function Text(comment: Option<string>): string {
    if comment.Some? then comment.value else ""
  }

  function TransitionFault(o: Order, transition: Transition, member: Option<MemberId>, comment: Option<string>,
                           context: Context): Option<Fault> {
    if transition !in ValidTransitions(o.status) then Some(InvalidTransition)
    else if transition.Assign? && member.None? then Some(AssigneeRequired)
    else if transition.Assign? && member.value !in context.members then Some(AssigneeInactive)
    else if (transition.Resolve? || transition.Cancel?) && Text(comment) == "" then Some(CommentRequired)
    else if transition.Resolve? && |Trim(Text(comment))| < RESOLUTION_SUMMARY_MIN_LENGTH then Some(SummaryTooShort)
    else if transition.Comment? && Text(comment) == "" then Some(CommentRequired)
    else None
  }

  function EvidenceFault(e: Evidence): Option<Fault> {
    match e
    case Arrival => None
    case Diagnosis(finding) => if Trim(finding) == "" then Some(EvidenceEmpty) else None
    case Intervention(description) => if Trim(description) == "" then Some(EvidenceEmpty) else None
    case Validation(outcome) => if Trim(outcome) == "" then Some(EvidenceEmpty) else None
  }

  predicate Owns(b: Book, id: OrderId, technician: MemberId) {
    id in b.orders && b.orders[id].assignee == Some(technician)
  }

  function FaultOf(b: Book, op: Op, context: Context): Option<Fault> {
    match op
    case CreateOrder(station, _, _, _, _) => if station in context.stations then None else Some(StationMissing)
    case Operate(id, transition, member, comment, _) =>
      if id !in b.orders then Some(NotFound) else TransitionFault(b.orders[id], transition, member, comment, context)
    case Work(id, technician, transition, comment) =>
      if transition.Assign? || transition.Cancel? then Some(NotAllowedHere)
      else if !Owns(b, id, technician) then Some(NotFound)
      else TransitionFault(b.orders[id], transition, None, comment, context)
    case Schedule(id, _, _) =>
      if id !in b.orders then Some(NotFound) else if Closed(b.orders[id].status) then Some(OrderClosed) else None
    case RecordEvidence(id, technician, evidence) =>
      if !Owns(b, id, technician) then Some(NotFound)
      else if Closed(b.orders[id].status) then Some(OrderClosed)
      else EvidenceFault(evidence)
  }

  // ---------------------------------------------------------------- the writes

  /** What a writer decided to write. An assignment also writes back the status it read. */
  datatype Change =
    | Assigning(member: MemberId, seen: OrderStatus)
    | Starting
    | Commenting(text: string)
    | Resolving(text: string, auto: bool)
    | Cancelling(text: string)
    | Scheduling(at: Option<int>)
    | Recording(evidence: Evidence)

  datatype Decision = Decision(order: OrderId, actor: Option<MemberId>, change: Change)

  function TransitionChange(seen: OrderStatus, transition: Transition, member: Option<MemberId>,
                            comment: Option<string>): Change
    requires transition.Assign? ==> member.Some?
  {
    match transition
    case Assign => Assigning(member.value, seen)
    case Start => Starting
    case Comment => Commenting(Text(comment))
    case Resolve => Resolving(Text(comment), false)
    case Cancel => Cancelling(Text(comment))
  }

  /** The decision an operation comes to on the row it read. */
  function DecisionOf(op: Op, o: Order): Decision
    requires !op.CreateOrder? && (op.Operate? && op.transition.Assign? ==> op.member.Some?)
    requires op.Work? ==> !op.transition.Assign?
  {
    match op
    case Operate(id, transition, member, comment, actor) =>
      Decision(id, actor, TransitionChange(o.status, transition, member, comment))
    case Work(id, technician, transition, comment) =>
      Decision(id, Some(technician), TransitionChange(o.status, transition, None, comment))
    case Schedule(id, at, scheduler) => Decision(id, Some(scheduler), Scheduling(at))
    case RecordEvidence(id, technician, evidence) => Decision(id, Some(technician), Recording(evidence))
  }

  /** An open order becomes ASSIGNED; a reassigned one keeps its status. */
  function OnceAssigned(s: OrderStatus): OrderStatus {
    if s == Open then Assigned else s
  }

  /** The row as it stands when the write lands, with the written columns replaced. */
  function Changed(o: Order, c: Change, now: int): Order {
    match c
    case Assigning(member, seen) => o.(status := OnceAssigned(seen), assignee := Some(member), assignedAt := Some(now))
    case Starting => o.(status := InProgress, startedAt := Some(now))
    case Commenting(text) => o.(notes := Some(text))
    case Resolving(text, _) => o.(status := Resolved, resolvedAt := Some(now), notes := Some(text))
    case Cancelling(text) => o.(status := Cancelled, notes := Some(text))
    case Scheduling(at) => o.(scheduledAt := at)
    case Recording(_) => o
  }

  function EntryOf(c: Change): Entry {
    match c
    case Assigning(member, _) => AssignedEntry(member)
    case Starting => StartedEntry
    case Commenting(text) => CommentedEntry(text)
    case Resolving(text, auto) => ResolvedEntry(text, auto)
    case Cancelling(text) => CancelledEntry(text)
    case Scheduling(at) => ScheduledEntry(at)
    case Recording(evidence) => EvidenceEntry(evidence)
  }

  function LoggedAs(d: Decision, now: int): Logged {
    Logged(d.order, d.actor, now, EntryOf(d.change))
  }

  /** A row write and its log entry; the write does not look at the row again. */
  function WriteDecided(b: Book, d: Decision, now: int): Book
    requires d.order in b.orders
  {
    b.(orders := b.orders[d.order := Changed(b.orders[d.order], d.change, now)], log := b.log + [LoggedAs(d, now)])
  }

  function NewOrder(op: Op, now: int): Order
    requires op.CreateOrder?
  {
    Order(op.station, op.source, op.priority, Open, None, None, op.planned, now, None, None, None)
  }

  function Created(b: Book, op: Op, now: int): Book
    requires op.CreateOrder?
  {
    Book(b.orders[b.next := NewOrder(op, now)],
         b.log + [Logged(b.next, op.creator, now, CreatedEntry(op.source, op.priority))], b.next + 1)
  }

  /** An operation whose write lands before anybody else's. */
  function Apply(b: Book, op: Op, context: Context, now: int): Book {
    if FaultOf(b, op, context).Some? then b
    else if op.CreateOrder? then Created(b, op, now)
    else WriteDecided(b, DecisionOf(op, b.orders[op.id]), now)
  }

  // ---------------------------------------------------------------- replaying the log

  datatype View = View(status: OrderStatus, assignee: Option<MemberId>, notes: Option<string>,
                       assignedAt: Option<int>, startedAt: Option<int>, resolvedAt: Option<int>)

  const UNTOUCHED := View(Open, None, None, None, None, None)

  function ViewOf(o: Order): View {
    View(o.status, o.assignee, o.notes, o.assignedAt, o.startedAt, o.resolvedAt)
  }

  /** The order's own entries, oldest first. */
  function LogOf(log: seq<Logged>, id: OrderId): seq<Logged> {
    if log == [] then []
    else LogOf(log[..|log| - 1], id) + if log[|log| - 1].order == id then [log[|log| - 1]] else []
  }

  function ReplayEntry(v: View, e: Logged): View {
    match e.entry
    case AssignedEntry(member) =>
      v.(status := if v.status == Open then Assigned else v.status, assignee := Some(member), assignedAt := Some(e.at))
    case StartedEntry => v.(status := InProgress, startedAt := Some(e.at))
    case CommentedEntry(text) => v.(notes := Some(text))
    case ResolvedEntry(text, _) => v.(status := Resolved, resolvedAt := Some(e.at), notes := Some(text))
    case CancelledEntry(text) => v.(status := Cancelled, notes := Some(text))
    case _ => v
  }

  function Replay(entries: seq<Logged>): View {
    if entries == [] then UNTOUCHED
    else ReplayEntry(Replay(entries[..|entries| - 1]), entries[|entries| - 1])
  }

  /** The last planned visit the log mentions, if it mentions any. */
  function ReplayPlan(entries: seq<Logged>): Option<Option<int>> {
    if entries == [] then None
    else if entries[|entries| - 1].entry.ScheduledEntry? then Some(entries[|entries| - 1].entry.at)
    else ReplayPlan(entries[..|entries| - 1])
  }

  /** What may be logged next, given what the log says so far. */
  predicate LegalNext(v: View, e: Logged) {
    && !Closed(v.status)
    && match e.entry
       case CreatedEntry(_, _) => false
       case AssignedEntry(_) => true
       case StartedEntry => v.status == Assigned
       case CommentedEntry(text) => text != ""
       case ResolvedEntry(text, auto) =>
         if auto then e.actor == None else v.status == InProgress && |Trim(text)| >= RESOLUTION_SUMMARY_MIN_LENGTH
       case CancelledEntry(text) => text != ""
       case ScheduledEntry(_) => true
       case EvidenceEntry(evidence) => e.actor.Some? && e.actor == v.assignee && EvidenceFault(evidence) == None
  }

  /** The log is a legal run: it opens with the creation and every later entry was legal when
      it was written. */
  predicate LegalLog(entries: seq<Logged>) {
    if |entries| == 0 then false
    else if |entries| == 1 then entries[0].entry.CreatedEntry?
    else LegalLog(entries[..|entries| - 1]) && LegalNext(Replay(entries[..|entries| - 1]), entries[|entries| - 1])
  }

  ghost predicate OrderFaithful(b: Book, id: OrderId)
    requires id in b.orders
  {
    var entries := LogOf(b.log, id);
    && LegalLog(entries) && Replay(entries) == ViewOf(b.orders[id])
    && (ReplayPlan(entries).Some? ==> b.orders[id].scheduledAt == ReplayPlan(entries).value)
    && entries[0].entry == CreatedEntry(b.orders[id].source, b.orders[id].priority)
  }

  /** Ids are handed out in order, and the event table mentions only existing orders. */
  ghost predicate Booked(b: Book) {
    && (forall id :: id in b.orders ==> id < b.next)
    && (forall k :: 0 <= k < |b.log| ==> b.log[k].order in b.orders)
  }

  /** Every row is what replaying its log gives and every log is a legal run. */
  ghost predicate Faithful(b: Book) {
    Booked(b) && forall id :: id in b.orders ==> OrderFaithful(b, id)
  }

  lemma {:induction false} LogOfOthers(log: seq<Logged>, id: OrderId)
    requires forall k :: 0 <= k < |log| ==> log[k].order != id
    ensures LogOf(log, id) == []
    decreases |log|
  {
    if log != [] { LogOfOthers(log[..|log| - 1], id); }
  }

  lemma LogOfSnoc(log: seq<Logged>, e: Logged, id: OrderId)
    ensures LogOf(log + [e], id) == LogOf(log, id) + if e.order == id then [e] else []
  {
    assert (log + [e])[..|log|] == log;
  }

  lemma LegalSnoc(entries: seq<Logged>, e: Logged)
    requires entries != []
    ensures LegalLog(entries + [e]) <==> LegalLog(entries) && LegalNext(Replay(entries), e)
    ensures Replay(entries + [e]) == ReplayEntry(Replay(entries), e)
    ensures ReplayPlan(entries + [e]) == if e.entry.ScheduledEntry? then Some(e.entry.at) else ReplayPlan(entries)
  {
    assert (entries + [e])[..|entries|] == entries;
  }

  // ---------------------------------------------------------------- a write that lands later

  /** What the checks made sure of for good: texts long enough, evidence not empty, an actor where
      the log needs one. */
  predicate Sensible(d: Decision) {
    match d.change
    case Assigning(_, _) => true
    case Starting => true
    case Commenting(text) => text != ""
    case Resolving(text, auto) => if auto then d.actor == None else |Trim(text)| >= RESOLUTION_SUMMARY_MIN_LENGTH
    case Cancelling(text) => text != ""
    case Scheduling(_) => true
    case Recording(evidence) => d.actor.Some? && EvidenceFault(evidence) == None
  }

  /** What the checks found and others may have changed since: the guards, read on the row the write
      meets. */
  predicate Timely(o: Order, d: Decision) {
    && !Closed(o.status)
    && match d.change
       case Assigning(_, seen) => OnceAssigned(seen) == OnceAssigned(o.status)
       case Starting => o.status == Assigned
       case Commenting(_) => true
       case Resolving(_, auto) => auto || o.status == InProgress
       case Cancelling(_) => true
       case Scheduling(_) => true
       case Recording(_) => o.assignee == d.actor
  }

  /** The checks admit exactly the transitions whose log entry is legal next, and an assignment
      only to an active member. */
  lemma AcceptedIffLegal(o: Order, id: OrderId, transition: Transition, member: Option<MemberId>,
                         comment: Option<string>, actor: Option<MemberId>, context: Context, now: int)
    ensures TransitionFault(o, transition, member, comment, context) == None <==>
      && (transition.Assign? ==> member.Some? && member.value in context.members)
      && LegalNext(ViewOf(o),
        LoggedAs(Decision(id, actor, TransitionChange(o.status, transition, member, comment)), now))
  {
    assert Trim("") == "";
  }

  /** A technician's transition is admitted exactly when it is a start, a comment or a resolution, the
      order is the technician's own, and its log entry is legal next. */
  lemma WorkAdmittedIff(b: Book, id: OrderId, technician: MemberId, transition: Transition, comment: Option<string>,
                        context: Context, now: int)
    ensures FaultOf(b, Work(id, technician, transition, comment), context) == None <==>
      && (transition == Start || transition == Comment || transition == Resolve)
      && id in b.orders && b.orders[id].assignee == Some(technician)
      && LegalNext(ViewOf(b.orders[id]), LoggedAs(
           Decision(id, Some(technician), TransitionChange(b.orders[id].status, transition, None, comment)), now))
  {
    if id in b.orders { AcceptedIffLegal(b.orders[id], id, transition, None, comment, Some(technician), context, now); }
  }

  /** Something else than white space, wherever the kind of evidence has a text. */
  predicate Tells(evidence: Evidence) {
    match evidence
    case Arrival => true
    case Diagnosis(text) => !AllWhite(text)
    case Intervention(text) => !AllWhite(text)
    case Validation(text) => !AllWhite(text)
  }

  lemma TellsIff(evidence: Evidence)
    ensures EvidenceFault(evidence) == None <==> Tells(evidence)
  {
    match evidence
    case Arrival =>
    case Diagnosis(text) => TrimmedAwayIff(text);
    case Intervention(text) => TrimmedAwayIff(text);
    case Validation(text) => TrimmedAwayIff(text);
  }

  /** A planned visit is admitted exactly on an order that is not closed, evidence exactly when it tells
      something of the technician's own unfinished order (and then its log entry is legal next), and a
      creation exactly for a station there is. */
  lemma OthersAdmittedIff(b: Book, op: Op, context: Context, now: int)
    requires op.Schedule? || op.RecordEvidence? || op.CreateOrder?
    ensures FaultOf(b, op, context) == None <==>
      match op
      case CreateOrder(station, _, _, _, _) => station in context.stations
      case Schedule(id, _, _) => id in b.orders && b.orders[id].status in {Open, Assigned, InProgress}
      case RecordEvidence(id, technician, evidence) =>
        && id in b.orders && b.orders[id].assignee == Some(technician)
        && b.orders[id].status in {Open, Assigned, InProgress} && Tells(evidence)
    ensures op.RecordEvidence? && FaultOf(b, op, context) == None ==>
      LegalNext(ViewOf(b.orders[op.id]), LoggedAs(Decision(op.id, Some(op.technician), Recording(op.evidence)), now))
  {
    if op.RecordEvidence? { TellsIff(op.evidence); }
  }

  /** Each check of a transition by itself. */
  predicate Fails(o: Order, transition: Transition, member: Option<MemberId>, comment: Option<string>, context: Context,
                  fault: Fault)
  {
    match fault
    case InvalidTransition =>
      || Closed(o.status) || (transition == Start && o.status != Assigned)
        || (transition == Resolve && o.status != InProgress)
    case AssigneeRequired => transition == Assign && member == None
    case AssigneeInactive => transition == Assign && member.Some? && member.value !in context.members
    case CommentRequired => transition in {Resolve, Cancel, Comment} && (comment == None || comment == Some(""))
    case SummaryTooShort => transition == Resolve && comment.Some? && |Trim(comment.value)| < 20
    case _ => false
  }

  function CheckRank(fault: Fault): nat {
    match fault
    case InvalidTransition => 0
    case AssigneeRequired => 1
    case AssigneeInactive => 2
    case CommentRequired => 3
    case SummaryTooShort => 4
    case _ => 5
  }

  /** A transition is refused for a reason exactly when that check fails and every one before it passes. */
  lemma FaultIff(o: Order, transition: Transition, member: Option<MemberId>, comment: Option<string>, context: Context,
                 fault: Fault)
    ensures TransitionFault(o, transition, member, comment, context) == Some(fault) <==>
      && Fails(o, transition, member, comment, context, fault)
      && forall other :: CheckRank(other) < CheckRank(fault) ==> !Fails(o, transition, member, comment, context, other)
  {
    assert Trim("") == "";
    FirstFault(o, transition, member, comment, context);
  }

  lemma FirstFault(o: Order, transition: Transition, member: Option<MemberId>, comment: Option<string>,
                   context: Context)
    ensures var fault := TransitionFault(o, transition, member, comment, context);
      && (fault.Some? ==> Fails(o, transition, member, comment, context, fault.value))
      && forall other :: (fault.Some? ==> CheckRank(other) < CheckRank(fault.value)) ==>
           !Fails(o, transition, member, comment, context, other)
  {
    assert Trim("") == "";
  }

  /** A decision is timely on the row it was made on. */
  lemma DecidedTimely(b: Book, op: Op, context: Context)
    requires !op.CreateOrder? && FaultOf(b, op, context) == None
    ensures op.id in b.orders && DecisionOf(op, b.orders[op.id]).order == op.id
    ensures Sensible(DecisionOf(op, b.orders[op.id])) && Timely(b.orders[op.id], DecisionOf(op, b.orders[op.id]))
  {
    assert Trim("") == "";
  }

  /** The entry is legal next and the row moves as the replay does exactly when the write is timely. */
  lemma LegalIffTimely(o: Order, d: Decision, now: int)
    requires Sensible(d)
    ensures Timely(o, d) <==>
      && LegalNext(ViewOf(o), LoggedAs(d, now))
      && ViewOf(Changed(o, d.change, now)) == ReplayEntry(ViewOf(o), LoggedAs(d, now))
  {
  }

  /** A write keeps its order's row and log in step exactly when it is timely: when the checks, made
      again on the row it meets, would still pass. */
  lemma LateWriteIff(b: Book, d: Decision, now: int)
    requires d.order in b.orders && OrderFaithful(b, d.order) && Sensible(d)
    ensures OrderFaithful(WriteDecided(b, d, now), d.order) <==> Timely(b.orders[d.order], d)
  {
    var entries := LogOf(b.log, d.order);
    LogOfSnoc(b.log, LoggedAs(d, now), d.order);
    LegalSnoc(entries, LoggedAs(d, now));
    LegalIffTimely(b.orders[d.order], d, now);
    assert (entries + [LoggedAs(d, now)])[0] == entries[0];
  }

  /** Orders it does not write to are as they were. */
  lemma OthersKept(b: Book, d: Decision, now: int, id: OrderId)
    requires d.order in b.orders && id != d.order
    ensures var b' := WriteDecided(b, d, now);
      && LogOf(b'.log, id) == LogOf(b.log, id) && (id in b'.orders <==> id in b.orders)
      && (id in b.orders ==> b'.orders[id] == b.orders[id] && (OrderFaithful(b', id) <==> OrderFaithful(b, id)))
  {
    LogOfSnoc(b.log, LoggedAs(d, now), id);
    assert LogOf(b.log, id) + [] == LogOf(b.log, id);
  }

  lemma CreatedKeeps(b: Book, op: Op, now: int, id: OrderId)
    requires op.CreateOrder? && Booked(b) && id in b.orders
    ensures var b' := Created(b, op, now);
      && id in b'.orders && b'.orders[id] == b.orders[id] && LogOf(b'.log, id) == LogOf(b.log, id)
      && (OrderFaithful(b', id) <==> OrderFaithful(b, id))
  {
    LogOfSnoc(b.log, Logged(b.next, op.creator, now, CreatedEntry(op.source, op.priority)), id);
    assert LogOf(b.log, id) + [] == LogOf(b.log, id);
  }

  lemma NewFaithful(b: Book, op: Op, now: int)
    requires op.CreateOrder? && Booked(b)
    ensures OrderFaithful(Created(b, op, now), b.next)
    ensures LogOf(Created(b, op, now).log, b.next) ==
      [Logged(b.next, op.creator, now, CreatedEntry(op.source, op.priority))]
  {
    var e := Logged(b.next, op.creator, now, CreatedEntry(op.source, op.priority));
    LogOfOthers(b.log, b.next);
    LogOfSnoc(b.log, e, b.next);
    assert LogOf(Created(b, op, now).log, b.next) == [e];
    CreatedOnly(e);
  }

  lemma CreatedOnly(e: Logged)
    requires e.entry.CreatedEntry?
    ensures LegalLog([e]) && Replay([e]) == UNTOUCHED && ReplayPlan([e]) == None
  {
    assert [e][..0] == [];
  }

  lemma WrittenBooked(b: Book, d: Decision, now: int)
    requires Booked(b) && d.order in b.orders
    ensures Booked(WriteDecided(b, d, now))
  {
  }

  lemma WriteFaithful(b: Book, d: Decision, now: int)
    requires Faithful(b) && d.order in b.orders && Sensible(d) && Timely(b.orders[d.order], d)
    ensures Faithful(WriteDecided(b, d, now))
  {
    WrittenBooked(b, d, now);
    LateWriteIff(b, d, now);
    forall id | id in b.orders && id != d.order ensures OrderFaithful(WriteDecided(b, d, now), id) {
      OthersKept(b, d, now, id);
    }
  }

  lemma CreateFaithful(b: Book, op: Op, now: int)
    requires Faithful(b) && op.CreateOrder?
    ensures Faithful(Created(b, op, now))
  {
    NewFaithful(b, op, now);
    forall id | id in b.orders ensures OrderFaithful(Created(b, op, now), id) {
      CreatedKeeps(b, op, now, id);
    }
  }

  /** So an operation whose write lands at once always keeps the book faithful. */
  lemma ApplyFaithful(b: Book, op: Op, context: Context, now: int)
    requires Faithful(b)
    ensures Faithful(Apply(b, op, context, now))
  {
    if FaultOf(b, op, context) == None {
      if op.CreateOrder? {
        CreateFaithful(b, op, now);
      } else {
        DecidedTimely(b, op, context);
        WriteFaithful(b, DecisionOf(op, b.orders[op.id]), now);
      }
    }
  }

  // ---------------------------------------------------------------- closing

  predicate Closes(e: Entry) {
    e.ResolvedEntry? || e.CancelledEntry?
  }

  /** How often the log closes its order. */
  function Closings(entries: seq<Logged>): nat {
    if entries == [] then 0
    else Closings(entries[..|entries| - 1]) + if Closes(entries[|entries| - 1].entry) then 1 else 0
  }

  lemma ClosingsSnoc(entries: seq<Logged>, e: Logged)
    ensures Closings(entries + [e]) == Closings(entries) + if Closes(e.entry) then 1 else 0
  {
    assert (entries + [e])[..|entries|] == entries;
  }

  /** In a legal log the replayed status is closed exactly when the last entry closes, no entry before
      the last one does, and the order is closed once or not at all. */
  lemma {:induction false} ClosingIsLast(entries: seq<Logged>)
    requires LegalLog(entries)
    ensures Closed(Replay(entries).status) <==> Closes(entries[|entries| - 1].entry)
    ensures forall k :: 0 <= k < |entries| - 1 ==> !Closes(entries[k].entry)
    ensures entries[0].entry.CreatedEntry? && forall k :: 1 <= k < |entries| ==> !entries[k].entry.CreatedEntry?
    ensures Closings(entries) == if Closed(Replay(entries).status) then 1 else 0
    decreases |entries|
  {
    if |entries| > 1 {
      ClosingIsLast(entries[..|entries| - 1]);
    } else {
      assert entries[..0] == [];
    }
  }

  // ---------------------------------------------------------------- the recovery sweep

  predicate IsBack(o: Order, stations: map<StationId, C.Station>) {
    && C.LinkOf(stations, o.station) == C.Online
    && stations[o.station].lastConnectedAt.Some? && stations[o.station].lastConnectedAt.value > o.createdAt
  }

  /** An unfinished outage order whose station is back since after the order was created. */
  predicate Recovered(o: Order, stations: map<StationId, C.Station>) {
    o.source == ConnectivityLoss && !Closed(o.status) && IsBack(o, stations)
  }

  /** The sweep's write: it goes around the transition table. */
  function Auto(id: OrderId): Decision {
    Decision(id, None, Resolving(CONNECTIVITY_RECOVERED_COMMENT, true))
  }

  function Eligible(b: Book, stations: map<StationId, C.Station>): set<OrderId> {
    set id | id in b.orders && Recovered(b.orders[id], stations)
  }

  ghost predicate Lists(ids: seq<OrderId>, wanted: set<OrderId>) {
    && (forall k :: 0 <= k < |ids| ==> ids[k] in wanted)
    && (forall id :: id in wanted ==> id in ids)
    && (forall k, l :: 0 <= k < l < |ids| ==> ids[k] != ids[l])
  }

  function ResolveEach(b: Book, ids: seq<OrderId>, now: int): Book
    requires forall k :: 0 <= k < |ids| ==> ids[k] in b.orders
    ensures ResolveEach(b, ids, now).orders.Keys == b.orders.Keys && ResolveEach(b, ids, now).next == b.next
  {
    if ids == [] then b else WriteDecided(ResolveEach(b, ids[..|ids| - 1], now), Auto(ids[|ids| - 1]), now)
  }

  /** What a sweep leaves, row by row and log by log, whatever order it worked in. */
  lemma {:induction false} ResolveEachIs(b: Book, ids: seq<OrderId>, now: int, id: OrderId)
    requires forall k :: 0 <= k < |ids| ==> ids[k] in b.orders
    requires forall k, l :: 0 <= k < l < |ids| ==> ids[k] != ids[l]
    requires id in b.orders
    ensures var b' := ResolveEach(b, ids, now);
      && b'.orders[id] == (if id in ids then Changed(b.orders[id], Auto(id).change, now) else b.orders[id])
      && LogOf(b'.log, id) == LogOf(b.log, id) + if id in ids then [LoggedAs(Auto(id), now)] else []
    decreases |ids|
  {
    if ids != [] {
      var init, last := ids[..|ids| - 1], ids[|ids| - 1];
      ResolveEachIs(b, init, now, id);
      assert id in ids <==> id in init || id == last;
      assert id == last ==> id !in init;
      LogOfSnoc(ResolveEach(b, init, now).log, LoggedAs(Auto(last), now), id);
    }
  }

  /** A sweep that nobody interrupts closes exactly the eligible orders and leaves every other row and
      log alone; a second one finds nothing to do. */
  lemma SweepIsExact(b: Book, stations: map<StationId, C.Station>, ids: seq<OrderId>, now: int, id: OrderId)
    requires Lists(ids, Eligible(b, stations)) && id in b.orders
    ensures var b' := ResolveEach(b, ids, now);
      && (if Recovered(b.orders[id], stations)
          then
            && b'.orders[id] ==
                 b.orders[id].(status := Resolved, resolvedAt := Some(now),
                               notes := Some(CONNECTIVITY_RECOVERED_COMMENT))
            && LogOf(b'.log, id) ==
                 LogOf(b.log, id) + [Logged(id, None, now, ResolvedEntry(CONNECTIVITY_RECOVERED_COMMENT, true))]
          else b'.orders[id] == b.orders[id] && LogOf(b'.log, id) == LogOf(b.log, id))
      && (b.orders[id].source != ConnectivityLoss || Closed(b.orders[id].status) ==> b'.orders[id] == b.orders[id])
      && Eligible(b', stations) == {}
  {
    ResolveEachIs(b, ids, now, id);
    var b' := ResolveEach(b, ids, now);
    forall other | other in b'.orders ensures !Recovered(b'.orders[other], stations) {
      ResolveEachIs(b, ids, now, other);
    }
  }

  lemma {:induction false} SweepFaithful(b: Book, ids: seq<OrderId>, now: int)
    requires Faithful(b)
    requires forall k :: 0 <= k < |ids| ==> ids[k] in b.orders && !Closed(b.orders[ids[k]].status)
    requires forall k, l :: 0 <= k < l < |ids| ==> ids[k] != ids[l]
    ensures Faithful(ResolveEach(b, ids, now))
    decreases |ids|
  {
    if ids != [] {
      var init, last := ids[..|ids| - 1], ids[|ids| - 1];
      SweepFaithful(b, init, now);
      ResolveEachIs(b, init, now, last);
      WriteFaithful(ResolveEach(b, init, now), Auto(last), now);
    }
  }

  /** The sweep's write is safe exactly when the order is still unfinished at that moment; on a row
      closed since the candidates were read it closes the order a second time. */
  lemma LateSweepIff(b: Book, id: OrderId, now: int)
    requires id in b.orders && OrderFaithful(b, id)
    ensures var b' := WriteDecided(b, Auto(id), now);
      && (OrderFaithful(b', id) <==> !Closed(b.orders[id].status))
      && Closings(LogOf(b'.log, id)) == if Closed(b.orders[id].status) then 2 else 1
  {
    LateWriteIff(b, Auto(id), now);
    LogOfSnoc(b.log, LoggedAs(Auto(id), now), id);
    ClosingsSnoc(LogOf(b.log, id), LoggedAs(Auto(id), now));
    ClosingIsLast(LogOf(b.log, id));
  }

  /** What the log leaves out: a visit planned at creation. Whatever is planned, the log is the same. */
  lemma PlannedVisitNotLogged(op: Op, planned: Option<int>, context: Context, now: int)
    requires op.CreateOrder? && op.station in context.stations
    ensures var b, b' := Apply(NO_ORDERS, op, context, now), Apply(NO_ORDERS, op.(planned := planned), context, now);
      && b.log == b'.log && 0 in b.orders && 0 in b'.orders
      && b.orders[0].scheduledAt == op.planned && b'.orders[0].scheduledAt == planned
  {
  }
}
