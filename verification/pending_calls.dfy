/** Outbound calls awaiting an answer: every registration is called back exactly once, whatever
    the interleaving of answers, timer firings and cancellation.

    A ticket stands for one registration: its pair of callbacks and the timer armed for it. */
module PendingCalls {

  type MessageId = string
  type Ticket = nat

  datatype Entry = Entry(ocppIdentity: string, ticket: Ticket)

  datatype Resolution = CallResult(payload: string) | CallError(code: string, description: string)

  datatype Outcome = Resolved(resolution: Resolution) | TimedOut

  /** outcomes records the callbacks each registration has received, in order. */
  datatype Calls = Calls(pending: map<MessageId, Entry>, armed: map<Ticket, MessageId>,
                         outcomes: map<Ticket, seq<Outcome>>)

  datatype Event =
    | Register(id: MessageId, ocppIdentity: string)
    | Resolve(answered: MessageId, resolution: Resolution)
    | TimerFires(ticket: Ticket)
    | CancelAll

  const EMPTY := Calls(map[], map[], map[])

  // ---------------------------------------------------------------- one step

  ghost function Tickets(pending: map<MessageId, Entry>): set<Ticket> {
    set id | id in pending :: pending[id].ticket
  }

  ghost function CalledBack(outcomes: map<Ticket, seq<Outcome>>, tickets: set<Ticket>,
                            o: Outcome): map<Ticket, seq<Outcome>> {
    map t | t in outcomes :: if t in tickets then outcomes[t] + [o] else outcomes[t]
  }

  ghost function Step(s: Calls, e: Event): Calls {
    match e
    case Register(id, identity) =>
      var t := |s.outcomes|;
      Calls(s.pending[id := Entry(identity, t)], s.armed[t := id], s.outcomes[t := []])
    case Resolve(id, resolution) =>
      if id !in s.pending then s
      else
        var t := s.pending[id].ticket;
        Calls(s.pending - {id}, s.armed - {t}, CalledBack(s.outcomes, {t}, Resolved(resolution)))
    case TimerFires(t) =>
      if t !in s.armed then s
      else Calls(s.pending - {s.armed[t]}, s.armed - {t}, CalledBack(s.outcomes, {t}, TimedOut))
    case CancelAll =>
      Calls(map[], s.armed - Tickets(s.pending), CalledBack(s.outcomes, Tickets(s.pending), TimedOut))
  }

  ghost function Run(s: Calls, es: seq<Event>): Calls {
    if es == [] then s else Step(Run(s, es[..|es| - 1]), es[|es| - 1])
  }

  // ---------------------------------------------------------------- exactly one callback

  ghost predicate Numbered(outcomes: map<Ticket, seq<Outcome>>) {
    forall t: nat :: t in outcomes <==> t < |outcomes|
  }

  /** A registration has been called back exactly when its timer is no longer armed, and then
      once; every pending entry's own timer is armed under its own id. */
  ghost predicate OncePerTicket(s: Calls) {
    && Numbered(s.outcomes) && s.armed.Keys <= s.outcomes.Keys
    && (forall t :: t in s.outcomes ==> |s.outcomes[t]| == if t in s.armed then 0 else 1)
    && (forall id :: id in s.pending ==> s.pending[id].ticket in s.armed && s.armed[s.pending[id].ticket] == id)
  }

  lemma CalledBackSize(outcomes: map<Ticket, seq<Outcome>>, tickets: set<Ticket>, o: Outcome)
    ensures |CalledBack(outcomes, tickets, o)| == |outcomes|
  {
    assert CalledBack(outcomes, tickets, o).Keys == outcomes.Keys;
  }

  lemma StepOnce(s: Calls, e: Event)
    requires OncePerTicket(s)
    ensures OncePerTicket(Step(s, e))
  {
    match e
    case Register(id, identity) => RegisterOnce(s, id, identity);
    case Resolve(id, resolution) =>
      if id in s.pending { CalledBackSize(s.outcomes, {s.pending[id].ticket}, Resolved(resolution)); }
    case TimerFires(t) => CalledBackSize(s.outcomes, {t}, TimedOut);
    case CancelAll => CancelOnce(s);
  }

  lemma NumberedGrows(outcomes: map<Ticket, seq<Outcome>>)
    requires Numbered(outcomes)
    ensures |outcomes| !in outcomes && Numbered(outcomes[|outcomes| := []])
  {
    var t := |outcomes|;
    assert t !in outcomes;
    assert |outcomes[t := []]| == t + 1;
  }

  lemma RegisterOnce(s: Calls, id: MessageId, identity: string)
    requires OncePerTicket(s)
    ensures OncePerTicket(Step(s, Register(id, identity)))
  {
    NumberedGrows(s.outcomes);
  }

  lemma CancelOnce(s: Calls)
    requires OncePerTicket(s)
    ensures OncePerTicket(Step(s, CancelAll))
  {
    CalledBackSize(s.outcomes, Tickets(s.pending), TimedOut);
    assert Tickets(s.pending) <= s.armed.Keys;
  }

  /** Over every interleaving, even with message ids reused while pending. */
  lemma {:induction false} RunOnce(es: seq<Event>)
    ensures OncePerTicket(Run(EMPTY, es))
    decreases |es|
  {
    if es != [] {
      RunOnce(es[..|es| - 1]);
      StepOnce(Run(EMPTY, es[..|es| - 1]), es[|es| - 1]);
    }
  }

  lemma StepKeepsCallback(s: Calls, e: Event, t: Ticket)
    requires OncePerTicket(s) && t in s.outcomes && s.outcomes[t] != []
    ensures t in Step(s, e).outcomes && Step(s, e).outcomes[t] == s.outcomes[t]
  {
    assert t !in s.armed;
  }

  /** A callback, once made, is final: later events neither repeat nor alter it. */
  lemma {:induction false} CallbackIsFinal(es: seq<Event>, n: nat, t: Ticket)
    requires n <= |es| && t in Run(EMPTY, es[..n]).outcomes && Run(EMPTY, es[..n]).outcomes[t] != []
    ensures t in Run(EMPTY, es).outcomes && Run(EMPTY, es).outcomes[t] == Run(EMPTY, es[..n]).outcomes[t]
    decreases |es|
  {
    if n == |es| {
      assert es[..n] == es;
    } else {
      var init := es[..|es| - 1];
      assert init[..n] == es[..n];
      CallbackIsFinal(init, n, t);
      RunOnce(init);
      StepKeepsCallback(Run(EMPTY, init), es[|es| - 1], t);
    }
  }

  // ---------------------------------------------------------------- which callback, and why

  /** The event that makes the given callback to the registration: an answer to the id whose pending
      entry is the registration's, its own timer, or the cancellation of a pending one. */
  ghost predicate Makes(s: Calls, e: Event, t: Ticket, o: Outcome) {
    match e
    case Register(_, _) => false
    case Resolve(id, resolution) => id in s.pending && s.pending[id].ticket == t && o == Resolved(resolution)
    case TimerFires(fired) => fired == t && t in s.armed && o == TimedOut
    case CancelAll => (exists id :: id in s.pending && s.pending[id].ticket == t) && o == TimedOut
  }

  ghost predicate CalledWith(s: Calls, t: Ticket, o: Outcome) {
    t in s.outcomes && s.outcomes[t] == [o]
  }

  lemma RegisterCallsNobody(s: Calls, id: MessageId, identity: string, t: Ticket, o: Outcome)
    requires OncePerTicket(s)
    ensures CalledWith(Step(s, Register(id, identity)), t, o) <==> CalledWith(s, t, o)
  {
    assert |s.outcomes| !in s.outcomes;
  }

  /** Calling back registrations that had not been called back yet. */
  lemma CalledBackIff(s: Calls, called: set<Ticket>, made: Outcome, t: Ticket, o: Outcome)
    requires OncePerTicket(s) && called <= s.armed.Keys
    ensures var outcomes := CalledBack(s.outcomes, called, made);
      (t in outcomes && outcomes[t] == [o]) <==> CalledWith(s, t, o) || (t in called && o == made)
  {
    assert t in s.armed ==> t in s.outcomes && s.outcomes[t] == [];
    if t in called { assert CalledBack(s.outcomes, called, made)[t] == [made] && [made][0] == made; }
    assert [o][0] == o;
  }

  lemma StepCallsIff(s: Calls, e: Event, t: Ticket, o: Outcome)
    requires OncePerTicket(s)
    ensures CalledWith(Step(s, e), t, o) <==> CalledWith(s, t, o) || Makes(s, e, t, o)
  {
    match e
    case Register(id, identity) => RegisterCallsNobody(s, id, identity, t, o);
    case Resolve(id, resolution) =>
      if id in s.pending { CalledBackIff(s, {s.pending[id].ticket}, Resolved(resolution), t, o); }
    case TimerFires(fired) => if fired in s.armed { CalledBackIff(s, {fired}, TimedOut, t, o); }
    case CancelAll => CalledBackIff(s, Tickets(s.pending), TimedOut, t, o);
  }

  ghost predicate MadeAt(es: seq<Event>, k: int, t: Ticket, o: Outcome) {
    0 <= k < |es| && Makes(Run(EMPTY, es[..k]), es[k], t, o)
  }

  lemma MadeBefore(es: seq<Event>, k: int, t: Ticket, o: Outcome)
    requires es != [] && 0 <= k < |es| - 1
    ensures MadeAt(es, k, t, o) <==> MadeAt(es[..|es| - 1], k, t, o)
  {
    assert es[..|es| - 1][..k] == es[..k];
  }

  lemma MadeEarlier(es: seq<Event>, t: Ticket, o: Outcome)
    requires es != []
    ensures var init := es[..|es| - 1];
      (exists k :: MadeAt(es, k, t, o)) <==>
        (exists k :: MadeAt(init, k, t, o)) || Makes(Run(EMPTY, init), es[|es| - 1], t, o)
  {
    var init := es[..|es| - 1];
    forall k | 0 <= k < |init| ensures MadeAt(es, k, t, o) <==> MadeAt(init, k, t, o) {
      MadeBefore(es, k, t, o);
    }
    assert MadeAt(es, |init|, t, o) <==> Makes(Run(EMPTY, init), es[|init|], t, o);
  }

  /** In every run, message ids reused or not: a registration is called back with a given result
      exactly when some event of the run was the answer with that result to its own entry; it is
      timed out exactly when its timer fired or it was cancelled while pending. */
  lemma {:induction false} CallbackIff(es: seq<Event>, t: Ticket, o: Outcome)
    ensures CalledWith(Run(EMPTY, es), t, o) <==> exists k :: MadeAt(es, k, t, o)
    decreases |es|
  {
    if es != [] {
      var init := es[..|es| - 1];
      CallbackIff(init, t, o);
      RunOnce(init);
      StepCallsIff(Run(EMPTY, init), es[|es| - 1], t, o);
      MadeEarlier(es, t, o);
    }
  }

  /** The registration that put the entry on file. */
  ghost predicate RegisteredAt(es: seq<Event>, k: int, id: MessageId, entry: Entry) {
    0 <= k < |es| && es[k] == Register(id, entry.ocppIdentity) && entry.ticket == |Run(EMPTY, es[..k]).outcomes|
  }

  /** Every pending entry is that of a registration of its id, with that registration's identity. */
  lemma {:induction false} EntryFromRegistration(es: seq<Event>, id: MessageId)
    requires id in Run(EMPTY, es).pending
    ensures exists k :: RegisteredAt(es, k, id, Run(EMPTY, es).pending[id])
    decreases |es|
  {
    var init, last := es[..|es| - 1], es[|es| - 1];
    var entry := Run(EMPTY, es).pending[id];
    if last.Register? && last.id == id {
      assert RegisteredAt(es, |init|, id, entry);
    } else {
      EntryFromRegistration(init, id);
      var k :| RegisteredAt(init, k, id, entry);
      assert init[..k] == es[..k];
      assert RegisteredAt(es, k, id, entry);
    }
  }

  ghost function Answered(s: Calls): set<Ticket> {
    set t | t in s.outcomes && s.outcomes[t] != [] && s.outcomes[t][0].Resolved?
  }

  ghost function Expired(s: Calls): set<Ticket> {
    set t | t in s.outcomes && s.outcomes[t] != [] && s.outcomes[t][0].TimedOut?
  }

  lemma ThreeParts(whole: set<Ticket>, a: set<Ticket>, b: set<Ticket>, c: set<Ticket>)
    requires whole == a + b + c && a !! b && a !! c && b !! c
    ensures |whole| == |a| + |b| + |c|
  {
    assert |a + b| == |a| + |b|;
    assert (a + b) !! c;
  }

  lemma CalledOrArmed(s: Calls, t: Ticket)
    requires OncePerTicket(s) && t in s.outcomes
    ensures t in s.armed || t in Answered(s) || t in Expired(s)
  {
    assert t !in s.armed ==> s.outcomes[t][0].Resolved? || s.outcomes[t][0].TimedOut?;
  }

  lemma Apart(s: Calls)
    requires OncePerTicket(s)
    ensures s.armed.Keys !! Answered(s) && s.armed.Keys !! Expired(s) && Answered(s) !! Expired(s)
  {
  }

  lemma AllAccountedFor(s: Calls)
    requires OncePerTicket(s)
    ensures s.outcomes.Keys == s.armed.Keys + Answered(s) + Expired(s)
  {
    forall t | t in s.outcomes ensures t in s.armed.Keys + Answered(s) + Expired(s) {
      CalledOrArmed(s, t);
    }
  }

  /** Registrations are conserved: armed plus answered plus timed out. */
  lemma Conservation(s: Calls)
    requires OncePerTicket(s)
    ensures |s.outcomes| == |s.armed| + |Answered(s)| + |Expired(s)|
  {
    Apart(s);
    AllAccountedFor(s);
    ThreeParts(s.outcomes.Keys, s.armed.Keys, Answered(s), Expired(s));
  }

  // ---------------------------------------------------------------- what fresh ids add

  /** Every armed timer belongs to a pending entry. */
  ghost predicate Linked(s: Calls) {
    forall t :: t in s.armed ==> s.armed[t] in s.pending && s.pending[s.armed[t]].ticket == t
  }

  /** Registering keeps timers and entries in step exactly when the id is not already pending. */
  lemma RegisterLinkedIffFresh(s: Calls, id: MessageId, identity: string)
    requires OncePerTicket(s) && Linked(s)
    ensures Linked(Step(s, Register(id, identity))) <==> id !in s.pending
  {
    var s' := Step(s, Register(id, identity));
    if id in s.pending {
      var t := s.pending[id].ticket;
      assert t in s'.armed && s'.armed[t] == id && s'.pending[id].ticket != t;
    }
  }

  /** No call is registered under an id that is still pending. */
  ghost predicate FreshIds(es: seq<Event>) {
    es != [] ==>
      var init := es[..|es| - 1];
      var last := es[|es| - 1];
      FreshIds(init) && (last.Register? ==> last.id !in Run(EMPTY, init).pending)
  }

  lemma StepLinked(s: Calls, e: Event)
    requires OncePerTicket(s) && Linked(s) && (e.Register? ==> e.id !in s.pending)
    ensures Linked(Step(s, e))
  {
    if e.Register? { RegisterLinkedIffFresh(s, e.id, e.ocppIdentity); }
    if e.TimerFires? && e.ticket in s.armed {
      assert forall t :: t in s.armed && t != e.ticket ==> s.armed[t] != s.armed[e.ticket];
    }
    if e.CancelAll? {
      assert forall t :: t in s.armed ==> t in Tickets(s.pending);
    }
  }

  lemma {:induction false} FreshRunLinked(es: seq<Event>)
    requires FreshIds(es)
    ensures Linked(Run(EMPTY, es))
    decreases |es|
  {
    if es != [] {
      FreshRunLinked(es[..|es| - 1]);
      RunOnce(es[..|es| - 1]);
      StepLinked(Run(EMPTY, es[..|es| - 1]), es[|es| - 1]);
    }
  }

  lemma {:induction false} LinkedCount(pending: map<MessageId, Entry>, armed: map<Ticket, MessageId>)
    requires forall t :: t in armed ==> armed[t] in pending && pending[armed[t]].ticket == t
    requires forall id :: id in pending ==> pending[id].ticket in armed && armed[pending[id].ticket] == id
    ensures |pending| == |armed|
    decreases |armed|
  {
    if armed.Keys == {} {
      assert forall id :: id !in pending;
      assert pending.Keys == {};
    } else {
      var t :| t in armed;
      var pending', armed' := pending - {armed[t]}, armed - {t};
      LinkedCount(pending', armed');
      assert pending.Keys == pending'.Keys + {armed[t]};
      assert armed.Keys == armed'.Keys + {t};
    }
  }

  /** With fresh ids: registered calls are pending, answered or timed out, and cancelling
      completes all of them. */
  lemma {:induction false} FreshRunConserves(es: seq<Event>)
    requires FreshIds(es)
    ensures |Run(EMPTY, es).outcomes| ==
      |Run(EMPTY, es).pending| + |Answered(Run(EMPTY, es))| + |Expired(Run(EMPTY, es))|
    ensures forall t :: t in Run(EMPTY, es).outcomes ==> |Run(EMPTY, es + [CancelAll]).outcomes[t]| == 1
  {
    var s := Run(EMPTY, es);
    RunOnce(es);
    FreshRunLinked(es);
    Conservation(s);
    LinkedCount(s.pending, s.armed);
    CancelOnce(s);
    assert (es + [CancelAll])[..|es|] == es;
    assert Run(EMPTY, es + [CancelAll]) == Step(s, CancelAll);
    assert forall t :: t in s.armed ==> t in Tickets(s.pending);
  }

  // ---------------------------------------------------------------- the registry

  /** Part way through cancelling: the tickets in done have been called back, the rest of the
      entries are untouched. */
  ghost predicate CancelledSoFar(was: Calls, now: Calls, done: set<Ticket>) {
    && OncePerTicket(was) && done <= Tickets(was.pending)
    && now.pending == (map id | id in was.pending && was.pending[id].ticket !in done :: was.pending[id])
    && now.armed == was.armed - done
    && now.outcomes == CalledBack(was.outcomes, done, TimedOut)
  }

  lemma CancelOne(was: Calls, now: Calls, done: set<Ticket>, id: MessageId)
    requires CancelledSoFar(was, now, done) && id in now.pending
    ensures var t := now.pending[id].ticket;
      CancelledSoFar(was, Calls(now.pending - {id}, now.armed - {t}, CalledBack(now.outcomes, {t}, TimedOut)),
        done + {t})
  {
    var t := now.pending[id].ticket;
    assert was.armed[t] == id;
    assert CalledBack(now.outcomes, {t}, TimedOut) == CalledBack(was.outcomes, done + {t}, TimedOut);
    assert now.armed - {t} == was.armed - (done + {t});
    assert t in Tickets(was.pending);
  }

  lemma CancelStart(was: Calls)
    requires OncePerTicket(was)
    ensures CancelledSoFar(was, was, {})
  {
    assert was.outcomes == CalledBack(was.outcomes, {}, TimedOut);
  }

  lemma CancelDone(was: Calls, now: Calls, done: set<Ticket>)
    requires CancelledSoFar(was, now, done) && now.pending.Keys == {}
    ensures now == Step(was, CancelAll) && |now.outcomes| == |was.outcomes|
  {
    assert forall id :: id in was.pending ==> id !in now.pending;
    assert done == Tickets(was.pending);
    assert now.pending == map[];
    CalledBackSize(was.outcomes, done, TimedOut);
  }

  class PendingCallRegistry {
    var pending: map<MessageId, Entry>
    var timers: map<Ticket, MessageId>
    var issued: nat
    ghost var outcomes: map<Ticket, seq<Outcome>>

    ghost function State(): Calls
      reads this
    {
      Calls(pending, timers, outcomes)
    }

    ghost predicate Valid()
      reads this
    {
      OncePerTicket(State()) && issued == |outcomes|
    }

    constructor ()
      ensures Valid() && State() == EMPTY
    {
      pending, timers, issued, outcomes := map[], map[], 0, map[];
    }

    method RegisterCall(id: MessageId, identity: string) returns (t: Ticket)
      requires Valid()
      modifies this
      ensures Valid() && State() == Step(old(State()), Register(id, identity)) && t == |old(outcomes)|
    {
      StepOnce(State(), Register(id, identity));
      t := issued;
      issued := issued + 1;
      timers := timers[t := id];
      pending := pending[id := Entry(identity, t)];
      outcomes := outcomes[t := []];
    }

    method ResolveCall(id: MessageId, resolution: Resolution)
      requires Valid()
      modifies this
      ensures Valid() && State() == Step(old(State()), Resolve(id, resolution))
    {
      StepOnce(State(), Resolve(id, resolution));
      if id !in pending { return; }
      var t := pending[id].ticket;
      CalledBackSize(outcomes, {t}, Resolved(resolution));
      timers := timers - {t};
      pending := pending - {id};
      outcomes := CalledBack(outcomes, {t}, Resolved(resolution));
    }

    /** The runtime fires an armed timer. */
    method Fire(t: Ticket)
      requires Valid() && t in timers
      modifies this
      ensures Valid() && State() == Step(old(State()), TimerFires(t))
    {
      StepOnce(State(), TimerFires(t));
      CalledBackSize(outcomes, {t}, TimedOut);
      pending := pending - {timers[t]};
      timers := timers - {t};
      outcomes := CalledBack(outcomes, {t}, TimedOut);
    }

    /** Clears one entry's timer, removes it and calls its onTimeout. */
    method CancelNext(id: MessageId, ghost was: Calls, ghost done: set<Ticket>) returns (ghost done': set<Ticket>)
      requires id in pending && CancelledSoFar(was, State(), done)
      modifies this
      ensures CancelledSoFar(was, State(), done') && pending == old(pending) - {id} && issued == old(issued)
    {
      var entry := pending[id];
      CancelOne(was, State(), done, id);
      timers := timers - {entry.ticket};
      pending := pending - {id};
      outcomes := CalledBack(outcomes, {entry.ticket}, TimedOut);
      done' := done + {entry.ticket};
    }

    /** Walks the pending entries in any order. */
    method CancelEverything()
      requires Valid()
      modifies this
      ensures Valid() && State() == Step(old(State()), CancelAll)
    {
      ghost var was := State();
      ghost var done: set<Ticket> := {};
      CancelOnce(was);
      CancelStart(was);
      while pending.Keys != {}
        invariant CancelledSoFar(was, State(), done) && issued == |was.outcomes|
        decreases pending.Keys
      {
        var id :| id in pending;
        done := CancelNext(id, was, done);
      }
      CancelDone(was, State(), done);
    }
  }
}
