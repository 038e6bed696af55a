/**
  Each event of the pipeline keeps the invariant, and so every run from the start satisfies it.
 */
module PipelineKeeps {
  import opened CText
  import opened Orders
  import opened Callback
  import opened Pipeline
  import opened PipelineInvariant
  import opened PipelineSteps

  /** What the invariant says about the order in a hand. */
  lemma HeldFacts(s: State, w: nat)
    requires Inv(s) && w < |s.hands| && !s.hands[w].Idle()
    ensures var id := s.hands[w].Id();
            && Known(s, id) && LifeOf(s, id) == s.lives[id]
            && LifeOk(s.lives[id], s.rows[id], s.steady, s.clock)
            && HandFits(s.hands[w], s.lives[id], s.rows[id], s.steady, s.clock)
  {
    assert HandOk(s, s.hands[w]);
    assert OrderOk(s, s.hands[w].Id());
  }

  // ---------- the charge worker ----------

  lemma MoreCalls(l: Life, r: Row, answer: int, steady: bool, clock: nat)
    requires LifeOk(l, r, steady, clock) && l.status == CREATE && |l.calls| < 5 && 0 !in l.calls
    ensures LifeOk(l.(calls := l.calls + [answer]), r, steady, clock)
  {
    var m := l.calls + [answer];
    forall i | 0 <= i < |m| - 1 ensures m[i] != 0 {
      assert m[i] == l.calls[i] && l.calls[i] in l.calls;
    }
  }

  lemma TryKeeps(s: State, w: nat, answer: Option<int>)
    requires Inv(s) && Enabled(s, Try(w, answer))
    ensures Inv(TryStep(s, w, answer))
  {
    hide AllOk, OncePlaced, InHands, InQueue;
    HeldFacts(s, w);
    var h, t := s.hands[w], TryStep(s, w, answer);
    var id := h.Id();
    var l := s.lives[id];
    match answer {
      case None => KeepsInHand(s, t, w, h.(tries := h.tries + 1));
      case Some(r) =>
        MoreCalls(l, s.rows[id], r, s.steady, s.clock);
        assert 0 in l.calls + [r] <==> r == 0;
        KeepsInHand(s, t, w, h.(tries := h.tries + 1, ret := r));
    }
  }

  lemma ChargedKeeps(s: State, w: nat)
    requires Inv(s) && Enabled(s, Charged(w))
    ensures Inv(ChargedStep(s, w))
  {
    hide AllOk, OncePlaced, InHands, InQueue;
    HeldFacts(s, w);
    var h, t := s.hands[w], ChargedStep(s, w);
    if h.ret != 0 {
      KeepsInHand(s, t, w, Updating(Charge, h.info.(status := FAILED, notify := NOTIFY_UNDONE)));
    } else {
      KeepsInHand(s, t, w, Pushing(Charge, h.info, QueryQueue));
    }
  }

  // ---------- the query worker ----------

  lemma ReadClockKeeps(s: State, w: nat, now: nat)
    requires Inv(s) && Enabled(s, ReadClock(w, now))
    ensures Inv(ReadClockStep(s, w, now))
  {
    hide AllOk, OncePlaced, InHands, InQueue;
    HeldFacts(s, w);
    var i, t := s.hands[w].info, ReadClockStep(s, w, now);
    if U32Minus(now, i.lastOpTime) < 1 {
      KeepsInHand(s, t, w, Pushing(Query, i, QueryQueue));
    } else {
      LaterThan(now, i.lastOpTime);
      KeepsInHand(s, t, w, Asking(i.(lastOpTime := now)));
    }
  }

  lemma LaterThan(now: nat, last: nat)
    requires U32Minus(now, last) >= 1
    ensures now != last
  {
  }

  lemma MoreTimes(l: Life, r: Row, now: nat, steady: bool, clock: nat)
    requires LifeOk(l, r, steady, clock)
    requires steady ==> now <= clock && (l.times != [] ==> l.times[|l.times| - 1] < now)
    ensures LifeOk(l.(times := l.times + [now]), r, steady, clock)
  {
    var ts := l.times + [now];
    if steady {
      forall i | 0 <= i < |ts| - 1 ensures ts[i] < ts[i + 1] {
        assert ts[i] == l.times[i] && ts[i + 1] == if i + 1 < |l.times| then l.times[i + 1] else now;
      }
    }
  }

  lemma AskAnswered(s: State, w: nat, answer: int)
    requires Inv(s) && Enabled(s, Ask(w, answer)) && answer == 0
    ensures Inv(AskStep(s, w, answer))
  {
    hide AllOk, OncePlaced, InHands, InQueue, AnsweredOnlyLast, EndsWithFirstZero;
    HeldFacts(s, w);
    var i := s.hands[w].info;
    MoreTimes(s.lives[i.order.coopOrderNo], s.rows[i.order.coopOrderNo], i.lastOpTime, s.steady, s.clock);
    hide Increasing;
    KeepsInHand(s, AskStep(s, w, answer), w, Updating(Query, i.(status := SUCCESS)));
  }

  lemma AskTimedOut(s: State, w: nat, answer: int)
    requires Inv(s) && Enabled(s, Ask(w, answer)) && answer != 0
    requires U32Minus(s.hands[w].info.lastOpTime, s.hands[w].info.createTime) >= TIMEOUT_TIME
    ensures Inv(AskStep(s, w, answer))
  {
    hide AllOk, OncePlaced, InHands, InQueue, AnsweredOnlyLast, EndsWithFirstZero;
    HeldFacts(s, w);
    var i := s.hands[w].info;
    MoreTimes(s.lives[i.order.coopOrderNo], s.rows[i.order.coopOrderNo], i.lastOpTime, s.steady, s.clock);
    hide Increasing;
    KeepsInHand(s, AskStep(s, w, answer), w, TimedOut(i.(status := SUCCESS)));
  }

  lemma AskAgain(s: State, w: nat, answer: int)
    requires Inv(s) && Enabled(s, Ask(w, answer)) && answer != 0
    requires U32Minus(s.hands[w].info.lastOpTime, s.hands[w].info.createTime) < TIMEOUT_TIME
    ensures Inv(AskStep(s, w, answer))
  {
    hide AllOk, OncePlaced, InHands, InQueue, AnsweredOnlyLast, EndsWithFirstZero;
    HeldFacts(s, w);
    var i := s.hands[w].info;
    MoreTimes(s.lives[i.order.coopOrderNo], s.rows[i.order.coopOrderNo], i.lastOpTime, s.steady, s.clock);
    hide Increasing;
    KeepsInHand(s, AskStep(s, w, answer), w, Pushing(Query, i, QueryQueue));
  }

  lemma AskKeeps(s: State, w: nat, answer: int)
    requires Inv(s) && Enabled(s, Ask(w, answer))
    ensures Inv(AskStep(s, w, answer))
  {
    hide Inv, AskStep, U32Minus;
    if answer == 0 {
      AskAnswered(s, w, answer);
    } else if U32Minus(s.hands[w].info.lastOpTime, s.hands[w].info.createTime) >= TIMEOUT_TIME {
      AskTimedOut(s, w, answer);
    } else {
      AskAgain(s, w, answer);
    }
  }

  lemma ConnectKeeps(s: State, w: nat, connected: bool)
    requires Inv(s) && Enabled(s, Connect(w, connected))
    ensures Inv(ConnectStep(s, w, connected))
  {
    hide AllOk, OncePlaced, InHands, InQueue;
    HeldFacts(s, w);
    var h, t := s.hands[w], ConnectStep(s, w, connected);
    if !connected {
      LetsGo(s, t, w, Top(h.Worker()), false);
    } else if h.TimedOut? {
      KeepsInHand(s, t, w, Updating(Query, h.info));
    } else {
      KeepsInHand(s, t, w, Reading(h.info));
    }
  }

  // ---------- the notify worker ----------

  lemma ReadRowKeeps(s: State, w: nat, readable: bool)
    requires Inv(s) && Enabled(s, ReadRow(w, readable))
    ensures Inv(ReadRowStep(s, w, readable))
  {
    hide AllOk, OncePlaced, InHands, InQueue;
    HeldFacts(s, w);
    var h, t := s.hands[w], ReadRowStep(s, w, readable);
    if h.info.order.userid != "tmall" {
      LetsGo(s, t, w, Top(Notify), true);
    } else {
      KeepsInHand(s, t, w, Posting(h.info, MAX_POSTS, 0));
    }
  }

  lemma AnswerIsCode(r: Reply)
    ensures Answer(r) in {0, NOTIFY_SUCCESS, NOTIFY_FAIL}
  {
  }

  lemma MorePosts(l: Life, r: Row, reply: Reply, steady: bool, clock: nat)
    requires LifeOk(l, r, steady, clock) && |l.posts| < MAX_POSTS
    requires l.posts == [] || Answer(l.posts[|l.posts| - 1]) == 0
    requires l.order.userid == "tmall" && Settled(l.status) && !MissingField(l.order)
    ensures LifeOk(l.(posts := l.posts + [reply]), r, steady, clock)
  {
    var ps := l.posts + [reply];
    forall i | 0 <= i < |ps| - 1 ensures Answer(ps[i]) == 0 {
      assert ps[i] == l.posts[i];
    }
  }

  lemma PostRefused(s: State, w: nat, reply: Reply)
    requires Inv(s) && Enabled(s, Post(w, reply)) && MissingField(s.hands[w].info.order)
    ensures Inv(PostStep(s, w, reply))
  {
    hide AllOk, OncePlaced, InHands, InQueue, Answer, MissingField;
    HeldFacts(s, w);
    LetsGo(s, PostStep(s, w, reply), w, Top(Notify), true);
  }

  lemma PostMade(s: State, w: nat, reply: Reply)
    requires Inv(s) && Enabled(s, Post(w, reply)) && !MissingField(s.hands[w].info.order)
    ensures Inv(PostStep(s, w, reply))
  {
    hide AllOk, OncePlaced, InHands, InQueue, Answer, MissingField, Increasing, EndsWithFirstZero;
    HeldFacts(s, w);
    var h := s.hands[w];
    AnswerIsCode(reply);
    MorePosts(s.lives[h.Id()], s.rows[h.Id()], reply, s.steady, s.clock);
    hide AnsweredOnlyLast;
    KeepsInHand(s, PostStep(s, w, reply), w, h.(left := h.left - 1, code := Answer(reply)));
  }

  lemma PostKeeps(s: State, w: nat, reply: Reply)
    requires Inv(s) && Enabled(s, Post(w, reply))
    ensures Inv(PostStep(s, w, reply))
  {
    hide Inv, PostStep;
    if MissingField(s.hands[w].info.order) {
      PostRefused(s, w, reply);
    } else {
      PostMade(s, w, reply);
    }
  }

  lemma PostsDoneKeeps(s: State, w: nat)
    requires Inv(s) && Enabled(s, PostsDone(w))
    ensures Inv(Step(s, PostsDone(w)))
  {
    hide AllOk, OncePlaced, InHands, InQueue;
    HeldFacts(s, w);
    var h := s.hands[w];
    KeepsInHand(s, Step(s, PostsDone(w)), w, Recording(h.info.(notify := FinalCode(h.code))));
  }

  // ---------- rows and lists ----------

  lemma SettlesRow(s: State, w: nat, outcome: DbOutcome)
    requires Inv(s) && Enabled(s, Update(w, outcome)) && s.hands[w].Updating?
    ensures Inv(UpdateStep(s, w, outcome))
  {
    hide AllOk, OncePlaced, InHands, InQueue, MissingField;
    HeldFacts(s, w);
    var h := s.hands[w];
    KeepsInHand(s, UpdateStep(s, w, outcome), w, Pushing(h.kind, h.info, NotifyQueue));
  }

  lemma RecordsNotice(s: State, w: nat, outcome: DbOutcome)
    requires Inv(s) && Enabled(s, Update(w, outcome)) && s.hands[w].Recording?
    ensures Inv(UpdateStep(s, w, outcome))
  {
    hide AllOk, OncePlaced, InHands, InQueue, MissingField;
    HeldFacts(s, w);
    LetsGo(s, UpdateStep(s, w, outcome), w, Top(Notify), true);
  }

  lemma UpdateKeeps(s: State, w: nat, outcome: DbOutcome)
    requires Inv(s) && Enabled(s, Update(w, outcome))
    ensures Inv(UpdateStep(s, w, outcome))
  {
    hide Inv, UpdateStep;
    if s.hands[w].Updating? {
      SettlesRow(s, w, outcome);
    } else {
      RecordsNotice(s, w, outcome);
    }
  }

  lemma EnqueueKeeps(s: State, w: nat, now: nat)
    requires Inv(s) && Enabled(s, Enqueue(w, now))
    ensures Inv(Step(s, Enqueue(w, now)))
  {
    hide AllOk, OncePlaced, InHands, InQueue;
    HeldFacts(s, w);
    var h := s.hands[w];
    Puts(s, Step(s, Enqueue(w, now)), w, Top(h.kind), h.target, Serialized(h.info, now));
  }

  /** What the invariant says about the order that is popped next. */
  lemma NextFacts(s: State, q: Queue, ts: seq<Ticket>)
    requires Inv(s) && ts == QueueAt(s, q) && ts != []
    ensures var t := ts[|ts| - 1];
            && Known(s, t.order.coopOrderNo) && LifeOf(s, t.order.coopOrderNo) == s.lives[t.order.coopOrderNo]
            && TicketFits(q, t, s.lives[t.order.coopOrderNo], s.rows[t.order.coopOrderNo], s.steady)
            && LifeOk(s.lives[t.order.coopOrderNo], s.rows[t.order.coopOrderNo], s.steady, s.clock)
  {
    hide OncePlaced, InHands, InQueue;
    var t := ts[|ts| - 1];
    assert TicketOk(s, q, t);
    assert OrderOk(s, t.order.coopOrderNo);
  }

  lemma DequeueToCharge(s: State, w: nat, now: nat)
    requires Inv(s) && Enabled(s, Dequeue(w, now)) && s.hands[w].kind == Charge
    ensures Inv(DequeueStep(s, w, now))
  {
    hide OncePlaced, InHands, InQueue, Inv;
    NextFacts(s, Underway, s.underway);
    var i := Deserialized(s.underway[|s.underway| - 1]);
    Takes(s, DequeueStep(s, w, now), w, Charge, Charging(i.(lastOpTime := now), 0, 1));
  }

  lemma DequeueToQuery(s: State, w: nat, now: nat)
    requires Inv(s) && Enabled(s, Dequeue(w, now)) && s.hands[w].kind == Query
    ensures Inv(DequeueStep(s, w, now))
  {
    hide OncePlaced, InHands, InQueue, Inv;
    NextFacts(s, QueryQueue, s.query);
    var i := Deserialized(s.query[|s.query| - 1]);
    Takes(s, DequeueStep(s, w, now), w, Query, Checking(i));
  }

  lemma DequeueToNotify(s: State, w: nat, now: nat)
    requires Inv(s) && Enabled(s, Dequeue(w, now)) && s.hands[w].kind == Notify
    ensures Inv(DequeueStep(s, w, now))
  {
    hide OncePlaced, InHands, InQueue, Inv;
    NextFacts(s, NotifyQueue, s.notify);
    var i := Deserialized(s.notify[|s.notify| - 1]);
    Takes(s, DequeueStep(s, w, now), w, Notify, Connecting(i));
  }

  lemma DequeueKeeps(s: State, w: nat, now: nat)
    requires Inv(s) && Enabled(s, Dequeue(w, now))
    ensures Inv(DequeueStep(s, w, now))
  {
    hide Inv, DequeueStep;
    match s.hands[w].kind
    case Charge => DequeueToCharge(s, w, now);
    case Query => DequeueToQuery(s, w, now);
    case Notify => DequeueToNotify(s, w, now);
  }

  lemma CreateKeeps(s: State, o: Order, now: nat)
    requires Inv(s) && Enabled(s, Create(o, now))
    ensures Inv(CreateStep(s, o, now))
  {
    hide InHands, InQueue, Among, TicketOk, HandOk, OrderOk, FinishedOk, LostOk;
    var t, id := CreateStep(s, o, now), o.coopOrderNo;
    var ticket := Ticket(o, CREATE, now, 0);
    assert Places(s, id) == 0;
    Nowhere(s, id);
    CreatedRecords(s, o, now);
    OthersStay(s, t, id, -1);
    OrdersStay(s, t, id);
    forall k ensures Places(t, k) == if k in t.lives then 1 else 0 {
      assert Places(s, k) == if k in s.lives then 1 else 0;
      InQueueOfPush(ticket, s.underway, k);
    }
  }

  lemma CreatedRecords(s: State, o: Order, now: nat)
    requires Enabled(s, Create(o, now))
    ensures var t := CreateStep(s, o, now);
            && OnlyTouches(s, t, o.coopOrderNo) && OrderOk(t, o.coopOrderNo)
            && TicketOk(t, Underway, Ticket(o, CREATE, now, 0))
  {
  }

  lemma StopKeeps(s: State)
    requires Inv(s)
    ensures Inv(s.(stopped := true))
  {
    hide InHands, InQueue, Among, TicketOk, HandOk, OrderOk, FinishedOk, LostOk;
    var t := s.(stopped := true);
    FewerAreOk(s, t);
    forall k ensures Places(t, k) == if k in t.lives then 1 else 0 {
      assert Places(s, k) == if k in s.lives then 1 else 0;
    }
  }

  // ---------- all together ----------

  lemma StepKeeps(s: State, e: Event)
    requires Inv(s) && Enabled(s, e)
    ensures Inv(Step(s, e))
  {
    hide Inv;
    match e
    case Create(o, now) => CreateKeeps(s, o, now);
    case Stop => StopKeeps(s);
    case Loop(w) =>
      StaysIdle(s, Step(s, e), w, if s.stopped then Exited(s.hands[w].kind) else Polling(s.hands[w].kind));
    case Dequeue(w, now) => DequeueKeeps(s, w, now);
    case NothingDequeued(w, alive) =>
      StaysIdle(s, Step(s, e), w, if alive then Top(s.hands[w].kind) else Exited(s.hands[w].kind));
    case Try(w, answer) => TryKeeps(s, w, answer);
    case Charged(w) => ChargedKeeps(s, w);
    case ReadClock(w, now) => ReadClockKeeps(s, w, now);
    case Ask(w, answer) => AskKeeps(s, w, answer);
    case Connect(w, connected) => ConnectKeeps(s, w, connected);
    case Update(w, outcome) => UpdateKeeps(s, w, outcome);
    case Enqueue(w, now) => EnqueueKeeps(s, w, now);
    case ReadRow(w, readable) => ReadRowKeeps(s, w, readable);
    case Post(w, reply) => PostKeeps(s, w, reply);
    case PostsDone(w) => PostsDoneKeeps(s, w);
  }

  lemma {:induction false} RunKeeps(s: State, es: seq<Event>)
    requires Inv(s) && Legal(s, es)
    ensures Inv(After(s, es))
    decreases es
  {
    hide Inv;
    if es != [] {
      StepKeeps(s, es[0]);
      RunKeeps(Step(s, es[0]), es[1..]);
    }
  }

  lemma {:induction false} StartHolds(kinds: seq<Kind>)
    ensures Inv(Start(kinds))
  {
    forall k ensures Places(Start(kinds), k) == 0 {
      NothingHeld(Start(kinds).hands, k);
    }
  }

  lemma {:induction false} NothingHeld(hands: seq<Hand>, id: string)
    requires forall v :: 0 <= v < |hands| ==> hands[v].Idle()
    ensures InHands(hands, id) == 0
  {
    if hands != [] {
      NothingHeld(hands[1..], id);
    }
  }
}
