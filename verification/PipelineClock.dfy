/**
  The two times an order carries are those of events: when it was last put in a list, and when the query
  worker last read the clock for it. And: what a stop does.
 */
module PipelineClock {
  import opened CText
  import opened Orders
  import opened Callback
  import opened Pipeline
  import opened PipelineInvariant
  import opened PipelineSteps
  import opened PipelineKeeps
  import opened PipelineProgress
  import opened PipelineTheorems
  import opened PipelineHistory

  // ---------- the times of events ----------

  // For an order: the time it was last put in a list, and the time last read for it.
  datatype Stamp = Stamp(put: nat, read: nat)

  function StampOf(st: map<string, Stamp>, id: string): Stamp {
    if id in st then st[id] else Stamp(0, 0)
  }

  /** The times after one more event: creation and enqueueing put an order in a list. */
  function Stamped(s: State, st: map<string, Stamp>, e: Event): map<string, Stamp>
    requires Enabled(s, e)
  {
    match e
    case Create(o, now) => st[o.coopOrderNo := Stamp(now, 0)]
    case Enqueue(w, now) => st[s.hands[w].Id() := StampOf(st, s.hands[w].Id()).(put := now)]
    case ReadClock(w, now) => st[s.hands[w].Id() := StampOf(st, s.hands[w].Id()).(read := now)]
    case _ => st
  }

  function StampsIn(s: State, st: map<string, Stamp>, es: seq<Event>): map<string, Stamp>
    requires Legal(s, es)
    decreases es
  {
    if es == [] then st else StampsIn(Step(s, es[0]), Stamped(s, st, es[0]), es[1..])
  }

  // ---------- they are the times carried ----------

  predicate HandDated(st: map<string, Stamp>, h: Hand) {
    h.Idle() || (h.info.createTime == StampOf(st, h.Id()).put
                 && (h.Asking? ==> h.info.lastOpTime == StampOf(st, h.Id()).read))
  }

  predicate TicketDated(st: map<string, Stamp>, t: Ticket) {
    t.createTime == StampOf(st, t.order.coopOrderNo).put
  }

  ghost predicate ListDated(st: map<string, Stamp>, q: seq<Ticket>) {
    forall i :: 0 <= i < |q| ==> TicketDated(st, q[i])
  }

  ghost predicate Dated(s: State, st: map<string, Stamp>) {
    && ListDated(st, s.underway) && ListDated(st, s.query) && ListDated(st, s.notify)
    && forall w :: 0 <= w < |s.hands| ==> HandDated(st, s.hands[w])
  }

  /** Only one order's stamp changes. */
  ghost predicate OnlyStamps(st: map<string, Stamp>, su: map<string, Stamp>, id: string) {
    forall k :: k != id ==> StampOf(su, k) == StampOf(st, k)
  }

  lemma OnlyStampsOne(st: map<string, Stamp>, id: string, stamp: Stamp)
    ensures OnlyStamps(st, st[id := stamp], id) && StampOf(st[id := stamp], id) == stamp
  {
  }

  lemma ListStaysDated(st: map<string, Stamp>, su: map<string, Stamp>, id: string, q: seq<Ticket>)
    requires OnlyStamps(st, su, id) && ListDated(st, q)
    requires forall i :: 0 <= i < |q| ==> q[i].order.coopOrderNo != id
    ensures ListDated(su, q)
  {
    forall i | 0 <= i < |q| ensures TicketDated(su, q[i]) {
      assert TicketDated(st, q[i]);
    }
  }

  lemma HandStaysDated(st: map<string, Stamp>, su: map<string, Stamp>, id: string, h: Hand)
    requires OnlyStamps(st, su, id) && HandDated(st, h) && InHand(h, id) == 0
    ensures HandDated(su, h)
  {
  }

  /** Whoever is not concerned keeps the times. */
  lemma OthersDated(s: State, st: map<string, Stamp>, su: map<string, Stamp>, id: string, w: int)
    requires Dated(s, st) && OnlyStamps(st, su, id) && Elsewhere(s, id, w)
    ensures ListDated(su, s.underway) && ListDated(su, s.query) && ListDated(su, s.notify)
    ensures forall v :: 0 <= v < |s.hands| && v != w ==> HandDated(su, s.hands[v])
  {
    hide TicketDated, HandDated, OnlyStamps, ListDated;
    ListStaysDated(st, su, id, s.underway);
    ListStaysDated(st, su, id, s.query);
    ListStaysDated(st, su, id, s.notify);
    forall v | 0 <= v < |s.hands| && v != w ensures HandDated(su, s.hands[v]) {
      HandStaysDated(st, su, id, s.hands[v]);
    }
  }

  lemma PushedDated(st: map<string, Stamp>, t: Ticket, q: seq<Ticket>)
    requires ListDated(st, q) && TicketDated(st, t)
    ensures ListDated(st, [t] + q)
  {
    forall i | 0 <= i < |[t] + q| ensures TicketDated(st, ([t] + q)[i]) {
      assert ([t] + q)[i] == if i == 0 then t else q[i - 1];
    }
  }

  /** The worker in hand w goes on with its order, or lets it go. */
  predicate GoesOn(s: State, w: nat, t: State) {
    && w < |s.hands| == |t.hands| && t.hands == s.hands[w := t.hands[w]] && !s.hands[w].Idle()
    && t.underway == s.underway && t.query == s.query && t.notify == s.notify
    && (t.hands[w].Idle() || (t.hands[w].Id() == s.hands[w].Id()
                              && t.hands[w].info.createTime == s.hands[w].info.createTime && !t.hands[w].Asking?))
    && !t.hands[w].Exited? && t.stopped == s.stopped
  }

  lemma GoesOnDated(s: State, st: map<string, Stamp>, w: nat, t: State)
    requires Dated(s, st) && GoesOn(s, w, t)
    ensures Dated(t, st)
  {
    forall v | 0 <= v < |t.hands| ensures HandDated(st, t.hands[v]) {
      assert HandDated(st, s.hands[v]);
    }
  }

  lemma TryGoesOn(s: State, w: nat, answer: Option<int>)
    requires Enabled(s, Try(w, answer))
    ensures GoesOn(s, w, TryStep(s, w, answer))
  {
    hide LifeOf;
  }

  lemma ChargedGoesOn(s: State, w: nat)
    requires Enabled(s, Charged(w))
    ensures GoesOn(s, w, ChargedStep(s, w))
  {
    hide LifeOf;
  }

  lemma AskGoesOn(s: State, w: nat, answer: int)
    requires Enabled(s, Ask(w, answer))
    ensures GoesOn(s, w, AskStep(s, w, answer))
  {
    hide LifeOf, U32Minus;
  }

  lemma ConnectGoesOn(s: State, w: nat, connected: bool)
    requires Enabled(s, Connect(w, connected))
    ensures GoesOn(s, w, ConnectStep(s, w, connected))
  {
  }

  lemma UpdateGoesOn(s: State, w: nat, outcome: DbOutcome)
    requires Enabled(s, Update(w, outcome))
    ensures GoesOn(s, w, UpdateStep(s, w, outcome))
  {
    hide LifeOf, RowsAfter;
  }

  lemma ReadRowGoesOn(s: State, w: nat, readable: bool)
    requires Enabled(s, ReadRow(w, readable))
    ensures GoesOn(s, w, ReadRowStep(s, w, readable))
  {
  }

  lemma PostGoesOn(s: State, w: nat, reply: Reply)
    requires Enabled(s, Post(w, reply))
    ensures GoesOn(s, w, PostStep(s, w, reply))
  {
    hide LifeOf, Answer, MissingField;
  }

  lemma PostsDoneGoesOn(s: State, w: nat)
    requires Enabled(s, PostsDone(w))
    ensures GoesOn(s, w, Step(s, PostsDone(w)))
  {
    hide FinalCode;
  }

  lemma ReadClockDated(s: State, st: map<string, Stamp>, w: nat, now: nat)
    requires Inv(s) && Dated(s, st) && Enabled(s, ReadClock(w, now))
    ensures Dated(ReadClockStep(s, w, now), Stamped(s, st, ReadClock(w, now)))
  {
    hide OncePlaced, AllOk, U32Minus, ListDated, OnlyStamps, StampOf, Elsewhere;
    var t, id := ReadClockStep(s, w, now), s.hands[w].Id();
    var su := Stamped(s, st, ReadClock(w, now));
    OnceHeld(s, w);
    OnlyStampsOne(st, id, StampOf(st, id).(read := now));
    OthersDated(s, st, su, id, w);
    assert HandDated(st, s.hands[w]);
    forall v | 0 <= v < |t.hands| ensures HandDated(su, t.hands[v]) {
      if v != w { assert t.hands[v] == s.hands[v]; }
    }
  }

  lemma OnceHeld(s: State, w: nat)
    requires Inv(s) && w < |s.hands| && !s.hands[w].Idle()
    ensures Elsewhere(s, s.hands[w].Id(), w)
  {
    hide AllOk, Places, Elsewhere;
    assert Places(s, s.hands[w].Id()) <= 1;
    InHandOnly(s, w);
  }

  lemma EnqueueDated(s: State, st: map<string, Stamp>, w: nat, now: nat)
    requires Inv(s) && Dated(s, st) && Enabled(s, Enqueue(w, now))
    ensures Dated(Step(s, Enqueue(w, now)), Stamped(s, st, Enqueue(w, now)))
  {
    hide OncePlaced, AllOk, ListDated, OnlyStamps, StampOf, Elsewhere;
    var t, id := Step(s, Enqueue(w, now)), s.hands[w].Id();
    var su := Stamped(s, st, Enqueue(w, now));
    OnceHeld(s, w);
    OnlyStampsOne(st, id, StampOf(st, id).(put := now));
    OthersDated(s, st, su, id, w);
    var ticket := Serialized(s.hands[w].info, now);
    match s.hands[w].target
    case Underway => PushedDated(su, ticket, s.underway);
    case QueryQueue => PushedDated(su, ticket, s.query);
    case NotifyQueue => PushedDated(su, ticket, s.notify);
  }

  lemma CreateDated(s: State, st: map<string, Stamp>, o: Order, now: nat)
    requires Inv(s) && Dated(s, st) && Enabled(s, Create(o, now))
    ensures Dated(CreateStep(s, o, now), Stamped(s, st, Create(o, now)))
  {
    hide AllOk, ListDated, OnlyStamps, StampOf, Elsewhere, Places, HandDated;
    var id := o.coopOrderNo;
    assert Places(s, id) == 0;
    Nowhere(s, id);
    OnlyStampsOne(st, id, Stamp(now, 0));
    OthersDated(s, st, st[id := Stamp(now, 0)], id, -1);
    PushedDated(st[id := Stamp(now, 0)], Ticket(o, CREATE, now, 0), s.underway);
  }

  /** A dequeue hands the last ticket of the list over, with its creation time. */
  predicate Hands(s: State, w: nat, ticket: Ticket, t: State) {
    && w < |s.hands| == |t.hands| && t.hands == s.hands[w := t.hands[w]] && t.stopped == s.stopped
    && t.underway <= s.underway && t.query <= s.query && t.notify <= s.notify
    && !t.hands[w].Idle() && t.hands[w].Id() == ticket.order.coopOrderNo
    && t.hands[w].info.createTime == ticket.createTime && !t.hands[w].Asking?
  }

  lemma DequeueHands(s: State, w: nat, now: nat)
    requires Enabled(s, Dequeue(w, now))
    ensures var q := QueueOf(s, s.hands[w].kind); Hands(s, w, q[|q| - 1], DequeueStep(s, w, now))
  {
    hide LifeOf;
    match s.hands[w].kind {
      case Charge => assert Hands(s, w, s.underway[|s.underway| - 1], DequeueStep(s, w, now));
      case Query => assert Hands(s, w, s.query[|s.query| - 1], DequeueStep(s, w, now));
      case Notify => assert Hands(s, w, s.notify[|s.notify| - 1], DequeueStep(s, w, now));
    }
  }

  lemma ShorterDated(st: map<string, Stamp>, p: seq<Ticket>, q: seq<Ticket>)
    requires ListDated(st, q) && p <= q
    ensures ListDated(st, p)
  {
    forall i | 0 <= i < |p| ensures TicketDated(st, p[i]) {
      assert TicketDated(st, q[i]);
    }
  }

  lemma LastDated(s: State, st: map<string, Stamp>, k: Kind)
    requires Dated(s, st) && QueueOf(s, k) != []
    ensures TicketDated(st, QueueOf(s, k)[|QueueOf(s, k)| - 1])
  {
  }

  lemma DequeueDated(s: State, st: map<string, Stamp>, w: nat, now: nat)
    requires Dated(s, st) && Enabled(s, Dequeue(w, now))
    ensures Dated(DequeueStep(s, w, now), st)
  {
    hide StampOf, ListDated, DequeueStep, QueueOf;
    var t := DequeueStep(s, w, now);
    DequeueHands(s, w, now);
    LastDated(s, st, s.hands[w].kind);
    ShorterDated(st, t.underway, s.underway);
    ShorterDated(st, t.query, s.query);
    ShorterDated(st, t.notify, s.notify);
    forall v | 0 <= v < |t.hands| ensures HandDated(st, t.hands[v]) {
      if v != w { assert t.hands[v] == s.hands[v]; }
    }
  }

  lemma IdleDated(s: State, st: map<string, Stamp>, e: Event)
    requires Dated(s, st) && Enabled(s, e) && (e.Stop? || e.Loop? || e.NothingDequeued?)
    ensures Dated(Step(s, e), st)
  {
    var t := Step(s, e);
    forall v | 0 <= v < |t.hands| ensures HandDated(st, t.hands[v]) {
      if !e.Stop? && v == e.w {
      } else {
        assert t.hands[v] == s.hands[v];
      }
    }
  }

  lemma StepDated(s: State, st: map<string, Stamp>, e: Event)
    requires Inv(s) && Dated(s, st) && Enabled(s, e)
    ensures Dated(Step(s, e), Stamped(s, st, e))
  {
    hide Inv, Dated, GoesOn, TryStep, ChargedStep, AskStep, ConnectStep, UpdateStep, ReadRowStep, PostStep, DequeueStep;
    hide CreateStep, ReadClockStep;
    match e
    case Create(o, now) => CreateDated(s, st, o, now);
    case Dequeue(w, now) => DequeueDated(s, st, w, now);
    case Try(w, answer) => TryGoesOn(s, w, answer); GoesOnDated(s, st, w, Step(s, e));
    case Charged(w) => ChargedGoesOn(s, w); GoesOnDated(s, st, w, Step(s, e));
    case ReadClock(w, now) => ReadClockDated(s, st, w, now);
    case Ask(w, answer) => AskGoesOn(s, w, answer); GoesOnDated(s, st, w, Step(s, e));
    case Connect(w, connected) => ConnectGoesOn(s, w, connected); GoesOnDated(s, st, w, Step(s, e));
    case Update(w, outcome) => UpdateGoesOn(s, w, outcome); GoesOnDated(s, st, w, Step(s, e));
    case Enqueue(w, now) => EnqueueDated(s, st, w, now);
    case ReadRow(w, readable) => ReadRowGoesOn(s, w, readable); GoesOnDated(s, st, w, Step(s, e));
    case Post(w, reply) => PostGoesOn(s, w, reply); GoesOnDated(s, st, w, Step(s, e));
    case PostsDone(w) => PostsDoneGoesOn(s, w); GoesOnDated(s, st, w, Step(s, e));
    case _ => IdleDated(s, st, e);
  }

  lemma {:induction false} RunDated(s: State, st: map<string, Stamp>, es: seq<Event>)
    requires Inv(s) && Dated(s, st) && Legal(s, es)
    ensures Dated(After(s, es), StampsIn(s, st, es))
    decreases es
  {
    hide Inv, Dated;
    if es != [] {
      hide Step, Stamped;
      StepDated(s, st, es[0]);
      StepKeeps(s, es[0]);
      RunDated(Step(s, es[0]), Stamped(s, st, es[0]), es[1..]);
    }
  }

  /**
    In every run: a query about an order settles it exactly if it is answered 0, or if the time last read
    for the order is 1800 seconds or more after the time it was last put in a list.
   */
  lemma SettledByTheClock(kinds: seq<Kind>, es: seq<Event>, w: nat, answer: int)
    requires Legal(Start(kinds), es) && Enabled(After(Start(kinds), es), Ask(w, answer))
    ensures var s := After(Start(kinds), es);
            var id := s.hands[w].info.order.coopOrderNo;
            var stamp := StampOf(StampsIn(Start(kinds), map[], es), id);
            && id in Step(s, Ask(w, answer)).lives
            && (Step(s, Ask(w, answer)).lives[id].status == SUCCESS
                <==> answer == 0 || (stamp.read - stamp.put) % 0x1_0000_0000 >= 1800)
  {
    hide Inv, Legal, After, StampsIn, StampOf;
    var s, st := After(Start(kinds), es), StampsIn(Start(kinds), map[], es);
    StartHolds(kinds);
    ReachedHolds(kinds, es);
    RunDated(Start(kinds), map[], es);
    hide Start;
    assert HandDated(st, s.hands[w]);
    hide Step;
    AskDecides(s, w, answer);
  }

  // ---------- stopping ----------

  /** A worker that is at the head of its loop after a stop, or has returned, never takes an order again. */
  lemma {:induction false} StopIsHeeded(s: State, es: seq<Event>, w: nat)
    requires Legal(s, es) && s.stopped && w < |s.hands| && (s.hands[w].Top? || s.hands[w].Exited?)
    ensures w < |After(s, es).hands| && (After(s, es).hands[w].Top? || After(s, es).hands[w].Exited?)
    decreases es
  {
    if es != [] {
      StopStep(s, es[0], w);
      hide Step;
      StopIsHeeded(Step(s, es[0]), es[1..], w);
    }
  }

  lemma StopStays(s: State, e: Event)
    requires Enabled(s, e)
    ensures Step(s, e).stopped == (s.stopped || e.Stop?)
  {
    if e.Create? {
      CreateIsStep(s, e);
    } else if !e.Stop? && !e.Loop? && !e.NothingDequeued? {
      hide Step, Enabled;
      WorksOn(s, e);
    }
  }

  lemma StopStep(s: State, e: Event, w: nat)
    requires Enabled(s, e) && s.stopped && w < |s.hands| && (s.hands[w].Top? || s.hands[w].Exited?)
    ensures var t := Step(s, e);
            t.stopped && w < |t.hands| && (t.hands[w].Top? || t.hands[w].Exited?)
  {
    StopStays(s, e);
    if e.Create? {
      CreateIsStep(s, e);
    } else if !e.Stop? {
      if e.w == w {
        assert e.Loop?;
      } else {
        hide Step, Enabled;
        StepNears(s, e);
      }
    }
  }

  /** A worker returns only after a stop, or when the server answers neither a ping nor a reconnect. */
  predicate Returns(s: State, e: Event, w: nat) {
    e == NothingDequeued(w, false) || (e == Loop(w) && s.stopped)
  }

  predicate ReturnsIn(s: State, es: seq<Event>, w: nat)
    requires Legal(s, es)
    decreases es
  {
    es != [] && (Returns(s, es[0], w) || ReturnsIn(Step(s, es[0]), es[1..], w))
  }

  lemma ReturnStep(s: State, e: Event, w: nat)
    requires Enabled(s, e) && w < |s.hands|
    ensures w < |Step(s, e).hands| && (Step(s, e).hands[w].Exited? <==> s.hands[w].Exited? || Returns(s, e, w))
  {
    if e.Create? {
      CreateIsStep(s, e);
    } else if !e.Stop? {
      if e.w != w {
        hide Step, Enabled;
        StepNears(s, e);
      } else if e.Loop? || e.NothingDequeued? {
      } else {
        WorksOn(s, e);
      }
    }
  }

  lemma ReadClockWorks(s: State, w: nat, now: nat)
    requires Enabled(s, ReadClock(w, now))
    ensures var t := ReadClockStep(s, w, now);
            w < |t.hands| == |s.hands| && !t.hands[w].Exited? && t.stopped == s.stopped
  {
    hide U32Minus;
  }

  lemma GoesOnWorks(s: State, w: nat, t: State)
    requires GoesOn(s, w, t)
    ensures w < |s.hands| == |t.hands| && !s.hands[w].Exited? && !t.hands[w].Exited? && t.stopped == s.stopped
  {
  }

  lemma WorksOn(s: State, e: Event)
    requires Enabled(s, e) && !e.Create? && !e.Stop? && !e.Loop? && !e.NothingDequeued?
    ensures e.w < |s.hands| == |Step(s, e).hands| && !s.hands[e.w].Exited? && !Step(s, e).hands[e.w].Exited?
    ensures Step(s, e).stopped == s.stopped
  {
    hide GoesOn, QueueOf, TryStep, ChargedStep, AskStep, ConnectStep, UpdateStep, ReadRowStep, PostStep;
    hide DequeueStep, ReadClockStep;
    match e
    case Dequeue(w, now) => DequeueHands(s, w, now);
    case ReadClock(w, now) => ReadClockWorks(s, w, now);
    case Enqueue(w, now) =>
    case Try(w, answer) => TryGoesOn(s, w, answer); GoesOnWorks(s, w, Step(s, e));
    case Charged(w) => ChargedGoesOn(s, w); GoesOnWorks(s, w, Step(s, e));
    case Ask(w, answer) => AskGoesOn(s, w, answer); GoesOnWorks(s, w, Step(s, e));
    case Connect(w, connected) => ConnectGoesOn(s, w, connected); GoesOnWorks(s, w, Step(s, e));
    case Update(w, outcome) => UpdateGoesOn(s, w, outcome); GoesOnWorks(s, w, Step(s, e));
    case ReadRow(w, readable) => ReadRowGoesOn(s, w, readable); GoesOnWorks(s, w, Step(s, e));
    case Post(w, reply) => PostGoesOn(s, w, reply); GoesOnWorks(s, w, Step(s, e));
    case PostsDone(w) => PostsDoneGoesOn(s, w); GoesOnWorks(s, w, Step(s, e));
  }

  lemma {:induction false} ReturnedExactly(s: State, es: seq<Event>, w: nat)
    requires Legal(s, es) && w < |s.hands|
    ensures w < |After(s, es).hands|
    ensures After(s, es).hands[w].Exited? <==> s.hands[w].Exited? || ReturnsIn(s, es, w)
    decreases es
  {
    if es != [] {
      ReturnStep(s, es[0], w);
      hide Step, Returns;
      ReturnedExactly(Step(s, es[0]), es[1..], w);
    }
  }
}
