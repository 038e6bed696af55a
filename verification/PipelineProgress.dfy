/**
  What one step of the pipeline does to the histories: they only grow, and those of one order at most.
 */
module PipelineProgress {
  import opened CText
  import opened Orders
  import opened Callback
  import opened Pipeline
  import opened PipelineInvariant
  import opened PipelineSteps
  import opened PipelineKeeps

  /** A later record of the same order. */
  predicate Grows(a: Life, b: Life) {
    && b.order == a.order && a.calls <= b.calls && a.times <= b.times && a.posts <= b.posts
    && (a.status != CREATE ==> b.status == a.status) && (b.synced ==> a.synced) && (b.noted ==> a.noted)
  }

  /** The order a step works on, if it is one that was created before. */
  function WorkedOn(s: State, e: Event): Option<string>
    requires Enabled(s, e)
  {
    if e.Create? || e.Stop? then None
    else if e.Dequeue? then Some(QueueOf(s, s.hands[e.w].kind)[|QueueOf(s, s.hands[e.w].kind)| - 1].order.coopOrderNo)
    else if s.hands[e.w].Idle() then None
    else Some(s.hands[e.w].Id())
  }

  /** Only the records of the order worked on change. */
  ghost predicate RecordsMove(s: State, worked: Option<string>, t: State) {
    && t.lives.Keys == s.lives.Keys && t.rows.Keys == s.rows.Keys
    && (forall id :: id in s.lives && Some(id) != worked ==> t.lives[id] == s.lives[id])
    && (forall id :: id in s.rows && Some(id) != worked ==> t.rows[id] == s.rows[id])
    && match worked
       case None => true
       case Some(id) =>
         && id in s.lives && id in s.rows && Grows(s.lives[id], t.lives[id])
         && (s.rows[id].notify != 0 ==> t.rows[id] == s.rows[id])
  }

  /** The lists of those who are done only grow, and `dropped` orders are lost. */
  predicate GoneMove(s: State, t: State, dropped: nat) {
    s.finished <= t.finished && s.lost <= t.lost && |t.lost| == |s.lost| + dropped
  }

  function Dropped(e: Event): nat {
    if e.Connect? && !e.connected then 1 else 0
  }

  predicate ClockMoves(s: State, t: State) {
    t.steady <==> s.steady && s.clock <= t.clock
  }

  /** The query list: nothing, a push on the left, or a pop from the right. */
  predicate QueryMoves(s: State, t: State) {
    || (t.query == s.query && t.put == s.put && t.taken == s.taken)
    || (t.query != [] && t.query[1..] == s.query && t.put == s.put + [t.query[0]] && t.taken == s.taken)
    || (s.query != [] && t.query == s.query[..|s.query| - 1] && t.put == s.put
        && t.taken == s.taken + [s.query[|s.query| - 1]])
  }

  ghost predicate Moves(s: State, e: Event, t: State)
    requires Enabled(s, e)
  {
    && GoneMove(s, t, Dropped(e)) && ClockMoves(s, t) && QueryMoves(s, t)
    && (!e.Create? ==> RecordsMove(s, WorkedOn(s, e), t))
  }

  /** A step that changes one hand, and the life of the order in it. */
  lemma HandMoves(s: State, e: Event, t: State, w: nat, h: Hand, l: Life)
    requires Inv(s) && Enabled(s, e) && !e.Create? && !e.Stop? && !e.Dequeue? && !e.Connect?
    requires e.w == w && !s.hands[w].Idle()
    requires t == SetLife(s, s.hands[w].Id(), l).(hands := s.hands[w := h])
    requires Grows(LifeOf(s, s.hands[w].Id()), l)
    ensures Moves(s, e, t)
  {
    hide Inv, HandFits, LifeOk, Grows;
    HeldFacts(s, w);
    assert WorkedOn(s, e) == Some(s.hands[w].Id());
  }

  lemma CreateMoves(s: State, o: Order, now: nat)
    requires Enabled(s, Create(o, now))
    ensures Moves(s, Create(o, now), CreateStep(s, o, now))
  {
  }

  lemma DequeueMovesCharge(s: State, w: nat, now: nat)
    requires Inv(s) && Enabled(s, Dequeue(w, now)) && s.hands[w].kind == Charge
    ensures Moves(s, Dequeue(w, now), DequeueStep(s, w, now))
  {
    hide Inv, LifeOk, TicketFits;
    NextFacts(s, Underway, s.underway);
    assert WorkedOn(s, Dequeue(w, now)) == Some(s.underway[|s.underway| - 1].order.coopOrderNo);
  }

  lemma DequeueMovesQuery(s: State, w: nat, now: nat)
    requires Inv(s) && Enabled(s, Dequeue(w, now)) && s.hands[w].kind == Query
    ensures Moves(s, Dequeue(w, now), DequeueStep(s, w, now))
  {
    hide Inv, LifeOk, TicketFits;
    NextFacts(s, QueryQueue, s.query);
    assert WorkedOn(s, Dequeue(w, now)) == Some(s.query[|s.query| - 1].order.coopOrderNo);
  }

  lemma DequeueMovesNotify(s: State, w: nat, now: nat)
    requires Inv(s) && Enabled(s, Dequeue(w, now)) && s.hands[w].kind == Notify
    ensures Moves(s, Dequeue(w, now), DequeueStep(s, w, now))
  {
    hide Inv, LifeOk, TicketFits;
    NextFacts(s, NotifyQueue, s.notify);
    assert WorkedOn(s, Dequeue(w, now)) == Some(s.notify[|s.notify| - 1].order.coopOrderNo);
  }

  lemma DequeueMoves(s: State, w: nat, now: nat)
    requires Inv(s) && Enabled(s, Dequeue(w, now))
    ensures Moves(s, Dequeue(w, now), DequeueStep(s, w, now))
  {
    hide Inv, Moves, DequeueStep;
    match s.hands[w].kind
    case Charge => DequeueMovesCharge(s, w, now);
    case Query => DequeueMovesQuery(s, w, now);
    case Notify => DequeueMovesNotify(s, w, now);
  }

  lemma TryMoves(s: State, w: nat, answer: Option<int>)
    requires Inv(s) && Enabled(s, Try(w, answer))
    ensures Moves(s, Try(w, answer), TryStep(s, w, answer))
  {
    hide Inv, LifeOk, HandFits, Moves;
    HeldFacts(s, w);
    var h := s.hands[w];
    var l := s.lives[h.Id()];
    match answer {
      case None =>
        assert s.lives == s.lives[h.Id() := l];
        HandMoves(s, Try(w, answer), TryStep(s, w, answer), w, h.(tries := h.tries + 1), l);
      case Some(r) =>
        HandMoves(s, Try(w, answer), TryStep(s, w, answer), w,
                  h.(tries := h.tries + 1, ret := r), l.(calls := l.calls + [r]));
    }
  }

  lemma ChargedMoves(s: State, w: nat)
    requires Inv(s) && Enabled(s, Charged(w))
    ensures Moves(s, Charged(w), ChargedStep(s, w))
  {
    hide Inv, LifeOk, Moves;
    HeldFacts(s, w);
    hide HandFits;
    var t := ChargedStep(s, w);
    var l := s.lives[s.hands[w].Id()];
    assert s.lives == s.lives[s.hands[w].Id() := l];
    HandMoves(s, Charged(w), t, w, t.hands[w], if s.hands[w].ret != 0 then l.(status := FAILED) else l);
  }

  lemma ReadClockMoves(s: State, w: nat, now: nat)
    requires Inv(s) && Enabled(s, ReadClock(w, now))
    ensures Moves(s, ReadClock(w, now), ReadClockStep(s, w, now))
  {
    hide Inv, LifeOk, HandFits, U32Minus;
    HeldFacts(s, w);
  }

  lemma AskedIsOpen(s: State, w: nat)
    requires Inv(s) && w < |s.hands| && s.hands[w].Asking?
    ensures Known(s, s.hands[w].Id()) && s.lives[s.hands[w].Id()].status == CREATE
  {
    hide Inv, LifeOk;
    HeldFacts(s, w);
  }

  lemma AskGrows(s: State, w: nat, answer: int, id: string)
    requires Enabled(s, Ask(w, answer)) && id == s.hands[w].Id() && Known(s, id) && s.lives[id].status == CREATE
    ensures var t := AskStep(s, w, answer);
            && |t.hands| == |s.hands| && id in t.lives && Grows(s.lives[id], t.lives[id])
            && t == SetLife(s, id, t.lives[id]).(hands := s.hands[w := t.hands[w]])
  {
    hide U32Minus;
  }

  lemma AskMoves(s: State, w: nat, answer: int)
    requires Inv(s) && Enabled(s, Ask(w, answer))
    ensures Moves(s, Ask(w, answer), AskStep(s, w, answer))
  {
    hide Inv, Moves, AskStep, Grows;
    AskedIsOpen(s, w);
    var t := AskStep(s, w, answer);
    var id := s.hands[w].Id();
    AskGrows(s, w, answer, id);
    HandMoves(s, Ask(w, answer), t, w, t.hands[w], t.lives[id]);
  }

  lemma ConnectMoves(s: State, w: nat, connected: bool)
    requires Inv(s) && Enabled(s, Connect(w, connected))
    ensures Moves(s, Connect(w, connected), ConnectStep(s, w, connected))
  {
    hide Inv, LifeOk, HandFits;
    HeldFacts(s, w);
  }

  lemma ReadRowMoves(s: State, w: nat, readable: bool)
    requires Inv(s) && Enabled(s, ReadRow(w, readable))
    ensures Moves(s, ReadRow(w, readable), ReadRowStep(s, w, readable))
  {
    hide Inv, LifeOk, HandFits;
    HeldFacts(s, w);
  }

  lemma PostMoves(s: State, w: nat, reply: Reply)
    requires Inv(s) && Enabled(s, Post(w, reply))
    ensures Moves(s, Post(w, reply), PostStep(s, w, reply))
  {
    hide Inv, LifeOk, HandFits, Answer, MissingField, Settled;
    HeldFacts(s, w);
  }

  lemma PostsDoneMoves(s: State, w: nat)
    requires Inv(s) && Enabled(s, PostsDone(w))
    ensures Moves(s, PostsDone(w), Step(s, PostsDone(w)))
  {
    hide Inv, LifeOk, HandFits;
    HeldFacts(s, w);
  }

  /** A row is only written while it holds no notify code. */
  lemma HeldRowIsOpen(s: State, w: nat)
    requires Inv(s) && w < |s.hands| && (s.hands[w].Updating? || s.hands[w].Recording?)
    ensures var id := s.hands[w].Id();
            && Known(s, id) && s.rows[id].notify == 0
            && s.lives[id].noted && (s.hands[w].Updating? ==> s.lives[id].synced)
  {
    hide Inv, LifeOk;
    HeldFacts(s, w);
  }

  lemma UpdateGrows(s: State, w: nat, outcome: DbOutcome)
    requires Inv(s) && Enabled(s, Update(w, outcome))
    ensures RecordsMove(s, Some(s.hands[w].Id()), UpdateStep(s, w, outcome))
  {
    hide Inv, StatusCode;
    HeldRowIsOpen(s, w);
  }

  lemma UpdateMoves(s: State, w: nat, outcome: DbOutcome)
    requires Inv(s) && Enabled(s, Update(w, outcome))
    ensures Moves(s, Update(w, outcome), UpdateStep(s, w, outcome))
  {
    hide Inv, RowsAfter, RecordsMove;
    UpdateGrows(s, w, outcome);
    assert WorkedOn(s, Update(w, outcome)) == Some(s.hands[w].Id());
  }

  lemma EnqueueMoves(s: State, w: nat, now: nat)
    requires Inv(s) && Enabled(s, Enqueue(w, now))
    ensures Moves(s, Enqueue(w, now), Step(s, Enqueue(w, now)))
  {
    hide Inv, LifeOk, HandFits, Serialized;
    HeldFacts(s, w);
  }

  lemma IdleMoves(s: State, e: Event)
    requires Inv(s) && Enabled(s, e) && (e.Stop? || e.Loop? || e.NothingDequeued?)
    ensures Moves(s, e, Step(s, e))
  {
    hide Inv;
  }

  lemma StepMoves(s: State, e: Event)
    requires Inv(s) && Enabled(s, e)
    ensures Moves(s, e, Step(s, e))
  {
    hide Inv, Moves;
    match e
    case Create(o, now) => CreateMoves(s, o, now);
    case Stop => IdleMoves(s, e);
    case Loop(w) => IdleMoves(s, e);
    case Dequeue(w, now) => DequeueMoves(s, w, now);
    case NothingDequeued(w, alive) => IdleMoves(s, e);
    case Try(w, answer) => TryMoves(s, w, answer);
    case Charged(w) => ChargedMoves(s, w);
    case ReadClock(w, now) => ReadClockMoves(s, w, now);
    case Ask(w, answer) => AskMoves(s, w, answer);
    case Connect(w, connected) => ConnectMoves(s, w, connected);
    case Update(w, outcome) => UpdateMoves(s, w, outcome);
    case Enqueue(w, now) => EnqueueMoves(s, w, now);
    case ReadRow(w, readable) => ReadRowMoves(s, w, readable);
    case Post(w, reply) => PostMoves(s, w, reply);
    case PostsDone(w) => PostsDoneMoves(s, w);
  }

  // ---------- many steps ----------

  /** The later of two states of a run. */
  ghost predicate Advances(s: State, t: State) {
    && s.finished <= t.finished && s.lost <= t.lost && s.put <= t.put && s.taken <= t.taken
    && (forall id :: id in s.lives ==> id in t.lives && Grows(s.lives[id], t.lives[id]))
    && (forall id :: id in s.rows ==> id in t.rows && (s.rows[id].notify != 0 ==> t.rows[id] == s.rows[id]))
    && (forall id :: id in s.lives && id in s.rows && (id in s.finished || id in s.lost) ==>
          t.lives[id] == s.lives[id] && t.rows[id] == s.rows[id])
  }

  lemma WorkedOnIsLive(s: State, e: Event)
    requires Inv(s) && Enabled(s, e)
    ensures match WorkedOn(s, e) case None => true case Some(id) => id !in s.finished && id !in s.lost
  {
    hide Inv, QueueOf;
    if e.Dequeue? {
      NextIsLive(s, s.hands[e.w].kind);
    } else if WorkedOn(s, e) != None {
      HeldIsLive(s, e.w);
    }
  }

  lemma NextIsLive(s: State, k: Kind)
    requires Inv(s) && QueueOf(s, k) != []
    ensures var id := QueueOf(s, k)[|QueueOf(s, k)| - 1].order.coopOrderNo; id !in s.finished && id !in s.lost
  {
    hide AllOk, InQueue, InHands, Among;
    var id := QueueOf(s, k)[|QueueOf(s, k)| - 1].order.coopOrderNo;
    assert Places(s, id) <= 1;
    InQueueOfPop(QueueOf(s, k), id);
    NotGone(s.finished, id);
    NotGone(s.lost, id);
  }

  lemma HeldIsLive(s: State, w: nat)
    requires Inv(s) && w < |s.hands| && !s.hands[w].Idle()
    ensures s.hands[w].Id() !in s.finished && s.hands[w].Id() !in s.lost
  {
    hide AllOk, InQueue, InHands, Among, Places;
    assert Places(s, s.hands[w].Id()) <= 1;
    InHandOnly(s, w);
  }

  lemma CreateAdvances(s: State, o: Order, now: nat)
    requires Enabled(s, Create(o, now))
    ensures Advances(s, CreateStep(s, o, now))
  {
  }

  lemma StepAdvances(s: State, e: Event)
    requires Inv(s) && Enabled(s, e)
    ensures Advances(s, Step(s, e))
  {
    hide Inv, Step;
    if e.Create? {
      CreateAdvances(s, e.order, e.now);
      assert Step(s, e) == CreateStep(s, e.order, e.now) by { CreateIsStep(s, e); }
    } else {
      StepMoves(s, e);
      WorkedOnIsLive(s, e);
      hide WorkedOn, Enabled;
    }
  }

  lemma CreateIsStep(s: State, e: Event)
    requires Enabled(s, e) && e.Create?
    ensures Step(s, e) == CreateStep(s, e.order, e.now)
  {
  }

  lemma AdvancesOnward(s: State, t: State, u: State)
    requires Advances(s, t) && Advances(t, u)
    ensures Advances(s, u)
  {
    forall id | id in s.lives && id in s.rows && (id in s.finished || id in s.lost)
      ensures u.lives[id] == s.lives[id] && u.rows[id] == s.rows[id]
    {
      assert id in s.finished ==> id in t.finished;
      assert id in s.lost ==> id in t.lost;
    }
  }

  lemma {:induction false} RunAdvances(s: State, es: seq<Event>)
    requires Inv(s) && Legal(s, es)
    ensures Advances(s, After(s, es))
    decreases es
  {
    hide Inv;
    if es != [] {
      hide Step, Advances;
      StepKeeps(s, es[0]);
      StepAdvances(s, es[0]);
      RunAdvances(Step(s, es[0]), es[1..]);
      AdvancesOnward(s, Step(s, es[0]), After(s, es));
    }
  }
}
