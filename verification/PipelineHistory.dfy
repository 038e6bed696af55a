/**
  What the events of a run make of an order: its history holds what was answered to it, it fails or
  succeeds exactly by what Charge and the queries returned and by the time that had passed, and no
  worker takes an order once it has seen the stop.
 */
module PipelineHistory {
  import opened CText
  import opened Orders
  import opened Callback
  import opened Pipeline
  import opened PipelineInvariant
  import opened PipelineSteps
  import opened PipelineKeeps
  import opened PipelineProgress
  import opened PipelineTheorems

  // ---------- single steps ----------

  /**
    After QueryRequest: the order is settled exactly if the answer is 0 or 1800 seconds have passed
    since it was serialised; then the row update comes next, in the second case if there is a connection;
    else the order goes back to the query list as it is.
   */
  lemma AskDecides(s: State, w: nat, answer: int)
    requires Inv(s) && Enabled(s, Ask(w, answer))
    ensures var t, i := Step(s, Ask(w, answer)), s.hands[w].info;
            var id, late := i.order.coopOrderNo, (i.lastOpTime - i.createTime) % 0x1_0000_0000 >= 1800;
            && id in t.lives && w < |t.hands|
            && (t.lives[id].status == SUCCESS <==> answer == 0 || late)
            && (t.lives[id].status == CREATE <==> answer != 0 && !late)
            && t.hands[w] == if answer == 0 then Updating(Query, i.(status := SUCCESS))
                             else if late then TimedOut(i.(status := SUCCESS))
                             else Pushing(Query, i, QueryQueue)
  {
    hide Inv;
    AskedIsOpen(s, w);
  }

  /** The query worker asks exactly if the clock has moved since the order was last handled. */
  lemma ClockDecides(s: State, w: nat, now: nat)
    requires Enabled(s, ReadClock(w, now))
    ensures var i := s.hands[w].info;
            Step(s, ReadClock(w, now)).hands[w]
            == if now % 0x1_0000_0000 == i.lastOpTime % 0x1_0000_0000 then Pushing(Query, i, QueryQueue)
               else Asking(i.(lastOpTime := now))
  {
    SameModulo(now, s.hands[w].info.lastOpTime);
  }

  lemma SameModulo(a: nat, b: nat)
    ensures U32Minus(a, b) < 1 <==> a % 0x1_0000_0000 == b % 0x1_0000_0000
  {
    var m := 0x1_0000_0000;
    assert a == a / m * m + a % m && b == b / m * m + b % m;
    assert (a - b) == (a / m - b / m) * m + (a % m - b % m);
    Turns(a / m - b / m, a % m - b % m);
  }

  lemma Turns(q: int, r: int)
    ensures (q * 0x1_0000_0000 + r) % 0x1_0000_0000 == r % 0x1_0000_0000
  {
  }

  // ---------- histories are what happened ----------

  /** The event is one of a worker that holds this order. */
  predicate IsAbout(s: State, e: Event, id: string) {
    !e.Create? && !e.Stop? && e.w < |s.hands| && !s.hands[e.w].Idle() && s.hands[e.w].Id() == id
  }

  /** The event takes this order from the list of new orders. */
  predicate TakesNew(s: State, e: Event, id: string) {
    && e.Dequeue? && e.w < |s.hands| && s.hands[e.w] == Polling(Charge) && s.underway != []
    && s.underway[|s.underway| - 1].order.coopOrderNo == id
  }

  function CallsOf(s: State, e: Event, id: string): seq<int> {
    if IsAbout(s, e, id) && e.Try? && e.result.Some? then [e.result.value] else []
  }

  predicate HasFields(o: Order) {
    o.coopId != "" && o.tbOrderNo != "" && o.coopOrderNo != "" && o.notifyUrl != ""
  }

  function RepliesOf(s: State, e: Event, id: string): seq<Reply> {
    if IsAbout(s, e, id) && e.Post? && HasFields(s.hands[e.w].info.order)
       && s.hands[e.w].info.status in {SUCCESS, FAILED}
    then [e.reply] else []
  }

  function TimesOf(s: State, e: Event, id: string): seq<nat> {
    if TakesNew(s, e, id) then [e.now]
    else if IsAbout(s, e, id) && e.Ask? then [s.hands[e.w].info.lastOpTime]
    else []
  }

  /** The event is a query about the order that settles it. */
  predicate Settles(s: State, e: Event, id: string) {
    && IsAbout(s, e, id) && e.Ask?
    && (e.answer == 0 || (s.hands[e.w].info.lastOpTime - s.hands[e.w].info.createTime) % 0x1_0000_0000 >= 1800)
  }

  /** The event is the end of ChargeRequest for the order, and no call had returned 0. */
  predicate Refuses(s: State, e: Event, id: string) {
    IsAbout(s, e, id) && e.Charged? && id in s.lives && 0 !in s.lives[id].calls
  }

  predicate LifeMoves(s: State, e: Event, id: string, a: Life, b: Life) {
    && b.calls == a.calls + CallsOf(s, e, id) && b.posts == a.posts + RepliesOf(s, e, id)
    && b.times == a.times + TimesOf(s, e, id)
    && (b.status == SUCCESS <==> a.status == SUCCESS || Settles(s, e, id))
    && (b.status == FAILED <==> a.status == FAILED || Refuses(s, e, id))
  }

  lemma LifeKept(s: State, e: Event, id: string, a: Life)
    requires CallsOf(s, e, id) == [] && RepliesOf(s, e, id) == [] && TimesOf(s, e, id) == []
    requires !Settles(s, e, id) && !Refuses(s, e, id)
    ensures LifeMoves(s, e, id, a, a)
  {
  }

  lemma TryLives(s: State, w: nat, answer: Option<int>)
    requires Inv(s) && Enabled(s, Try(w, answer))
    ensures var id := s.hands[w].Id();
            id in s.lives && LifeMoves(s, Try(w, answer), id, s.lives[id], TryStep(s, w, answer).lives[id])
  {
    hide Inv, LifeOk, HandFits;
    HeldFacts(s, w);
  }

  lemma ChargedLives(s: State, w: nat)
    requires Inv(s) && Enabled(s, Charged(w))
    ensures var id := s.hands[w].Id();
            id in s.lives && LifeMoves(s, Charged(w), id, s.lives[id], ChargedStep(s, w).lives[id])
  {
    hide Inv, LifeOk;
    HeldFacts(s, w);
  }

  lemma AskLives(s: State, w: nat, answer: int)
    requires Inv(s) && Enabled(s, Ask(w, answer))
    ensures var id := s.hands[w].Id();
            id in s.lives && LifeMoves(s, Ask(w, answer), id, s.lives[id], AskStep(s, w, answer).lives[id])
  {
    hide Inv;
    AskedIsOpen(s, w);
  }

  lemma UpdateLives(s: State, w: nat, outcome: DbOutcome)
    requires Inv(s) && Enabled(s, Update(w, outcome))
    ensures var id := s.hands[w].Id();
            id in s.lives && LifeMoves(s, Update(w, outcome), id, s.lives[id], UpdateStep(s, w, outcome).lives[id])
  {
    hide Inv, RowsAfter;
    HeldRowIsOpen(s, w);
  }

  lemma PostLives(s: State, w: nat, reply: Reply)
    requires Inv(s) && Enabled(s, Post(w, reply))
    ensures var id := s.hands[w].Id();
            id in s.lives && LifeMoves(s, Post(w, reply), id, s.lives[id], PostStep(s, w, reply).lives[id])
  {
    hide Inv, LifeOk, HandFits, Answer;
    HeldFacts(s, w);
  }

  lemma TakeNewLives(s: State, w: nat, now: nat, id: string)
    requires Enabled(s, Dequeue(w, now)) && s.hands[w].kind == Charge && id in s.lives
    requires s.underway[|s.underway| - 1].order.coopOrderNo == id
    ensures id in DequeueStep(s, w, now).lives
    ensures LifeMoves(s, Dequeue(w, now), id, s.lives[id], DequeueStep(s, w, now).lives[id])
  {
  }

  lemma TakeOldLives(s: State, w: nat, now: nat, id: string)
    requires Enabled(s, Dequeue(w, now)) && s.hands[w].kind != Charge && id in s.lives
    ensures DequeueStep(s, w, now).lives == s.lives
    ensures LifeMoves(s, Dequeue(w, now), id, s.lives[id], s.lives[id])
  {
    LifeKept(s, Dequeue(w, now), id, s.lives[id]);
  }

  lemma TakeLives(s: State, w: nat, now: nat, id: string)
    requires Enabled(s, Dequeue(w, now)) && id in s.lives && WorkedOn(s, Dequeue(w, now)) == Some(id)
    ensures id in DequeueStep(s, w, now).lives
    ensures LifeMoves(s, Dequeue(w, now), id, s.lives[id], DequeueStep(s, w, now).lives[id])
  {
    hide LifeMoves, DequeueStep;
    if s.hands[w].kind == Charge {
      TakeNewLives(s, w, now, id);
    } else {
      TakeOldLives(s, w, now, id);
    }
  }

  /** The events that only move an order leave its history. */
  lemma EarlyLives(s: State, e: Event, id: string)
    requires Enabled(s, e) && id in s.lives && (e.ReadClock? || e.Connect? || e.Loop? || e.NothingDequeued? || e.Stop?)
    ensures Step(s, e).lives == s.lives && LifeMoves(s, e, id, s.lives[id], s.lives[id])
  {
    hide U32Minus;
    LifeKept(s, e, id, s.lives[id]);
  }

  lemma LateLives(s: State, e: Event, id: string)
    requires Enabled(s, e) && id in s.lives && (e.Enqueue? || e.ReadRow? || e.PostsDone?)
    ensures Step(s, e).lives == s.lives && LifeMoves(s, e, id, s.lives[id], s.lives[id])
  {
    hide Serialized, FinalCode;
    LifeKept(s, e, id, s.lives[id]);
  }

  /** Of one event: every order's history grows by what the event says about it, and by nothing else. */
  lemma HistoryStep(s: State, e: Event, id: string)
    requires Inv(s) && Enabled(s, e) && id in s.lives
    ensures id in Step(s, e).lives && LifeMoves(s, e, id, s.lives[id], Step(s, e).lives[id])
  {
    hide Inv, LifeMoves;
    if e.Create? {
      CreateAway(s, e, id);
    } else if WorkedOn(s, e) != Some(id) {
      hide Step;
      StepMoves(s, e);
      NotAbout(s, e, id);
      LifeKept(s, e, id, s.lives[id]);
    } else {
      hide TryStep, ChargedStep, AskStep, UpdateStep, PostStep, DequeueStep;
      match e
      case Try(w, answer) => TryLives(s, w, answer);
      case Charged(w) => ChargedLives(s, w);
      case Ask(w, answer) => AskLives(s, w, answer);
      case Update(w, outcome) => UpdateLives(s, w, outcome);
      case Post(w, reply) => PostLives(s, w, reply);
      case Dequeue(w, now) => TakeLives(s, w, now, id);
      case Enqueue(w, now) => LateLives(s, e, id);
      case ReadRow(w, readable) => LateLives(s, e, id);
      case PostsDone(w) => LateLives(s, e, id);
      case _ => EarlyLives(s, e, id);
    }
  }

  lemma CreateAway(s: State, e: Event, id: string)
    requires Enabled(s, e) && e.Create? && id in s.lives
    ensures id in Step(s, e).lives && LifeMoves(s, e, id, s.lives[id], Step(s, e).lives[id])
  {
  }

  lemma NotAbout(s: State, e: Event, id: string)
    requires Enabled(s, e) && !e.Create? && WorkedOn(s, e) != Some(id)
    ensures CallsOf(s, e, id) == [] && RepliesOf(s, e, id) == [] && TimesOf(s, e, id) == []
    ensures !Settles(s, e, id) && !Refuses(s, e, id)
  {
  }

  /** The same with an order that is yet to be created counting as one without a history. */
  lemma LifeStep(s: State, e: Event, id: string)
    requires Inv(s) && Enabled(s, e)
    ensures LifeMoves(s, e, id, LifeOf(s, id), LifeOf(Step(s, e), id))
  {
    if id in s.lives {
      hide Inv, LifeMoves, Step;
      HistoryStep(s, e, id);
    } else {
      Unheard(s, e, id);
      hide Inv;
      LifeKept(s, e, id, LifeOf(s, id));
      if e.Create? {
        CreateBegins(s, e, id);
      } else {
        hide Step;
        StepMoves(s, e);
      }
    }
  }

  lemma CreateBegins(s: State, e: Event, id: string)
    requires Enabled(s, e) && e.Create? && id !in s.lives
    ensures var l := LifeOf(Step(s, e), id); l.calls == [] && l.posts == [] && l.times == [] && l.status == CREATE
  {
  }

  /** Nothing happens to an order that was not created. */
  lemma Unheard(s: State, e: Event, id: string)
    requires Inv(s) && Enabled(s, e) && id !in s.lives
    ensures CallsOf(s, e, id) == [] && RepliesOf(s, e, id) == [] && TimesOf(s, e, id) == []
    ensures !Settles(s, e, id) && !Refuses(s, e, id)
  {
    hide Inv, LifeOk, HandFits, TicketFits;
    if IsAbout(s, e, id) {
      HeldFacts(s, e.w);
    }
    if TakesNew(s, e, id) {
      NextFacts(s, Underway, s.underway);
    }
  }

  // ---------- the same over runs ----------

  function CallsIn(s: State, es: seq<Event>, id: string): seq<int>
    requires Legal(s, es)
    decreases es
  {
    if es == [] then [] else CallsOf(s, es[0], id) + CallsIn(Step(s, es[0]), es[1..], id)
  }

  function RepliesIn(s: State, es: seq<Event>, id: string): seq<Reply>
    requires Legal(s, es)
    decreases es
  {
    if es == [] then [] else RepliesOf(s, es[0], id) + RepliesIn(Step(s, es[0]), es[1..], id)
  }

  function TimesIn(s: State, es: seq<Event>, id: string): seq<nat>
    requires Legal(s, es)
    decreases es
  {
    if es == [] then [] else TimesOf(s, es[0], id) + TimesIn(Step(s, es[0]), es[1..], id)
  }

  /** Some event of the run settles the order. */
  predicate SettledIn(s: State, es: seq<Event>, id: string)
    requires Legal(s, es)
    decreases es
  {
    es != [] && (Settles(s, es[0], id) || SettledIn(Step(s, es[0]), es[1..], id))
  }

  /** Some event of the run ends a request for the order without success. */
  predicate RefusedIn(s: State, es: seq<Event>, id: string)
    requires Legal(s, es)
    decreases es
  {
    es != [] && (Refuses(s, es[0], id) || RefusedIn(Step(s, es[0]), es[1..], id))
  }

  lemma {:induction false} HistoryRun(s: State, es: seq<Event>, id: string)
    requires Inv(s) && Legal(s, es)
    ensures var a, b := LifeOf(s, id), LifeOf(After(s, es), id);
            && b.calls == a.calls + CallsIn(s, es, id) && b.posts == a.posts + RepliesIn(s, es, id)
            && b.times == a.times + TimesIn(s, es, id)
            && (b.status == SUCCESS <==> a.status == SUCCESS || SettledIn(s, es, id))
            && (b.status == FAILED <==> a.status == FAILED || RefusedIn(s, es, id))
    decreases es
  {
    hide Inv, LifeOf, CallsOf, RepliesOf, TimesOf, Settles, Refuses, Step;
    if es != [] {
      LifeStep(s, es[0], id);
      StepKeeps(s, es[0]);
      HistoryRun(Step(s, es[0]), es[1..], id);
    }
  }

  lemma NoHistory(kinds: seq<Kind>, id: string)
    ensures var l := LifeOf(Start(kinds), id); l.calls == [] && l.posts == [] && l.times == [] && l.status == CREATE
  {
  }

  /**
    Over every run an order has succeeded exactly if some query about it was answered 0 or came 1800
    seconds after it was serialised, and has failed exactly if its ChargeRequest ended with no call
    having returned 0. Its history holds just what its Charge calls returned, the replies to its posts,
    and the times at which it was taken to be charged and then asked about.
   */
  lemma HistoryTells(kinds: seq<Kind>, es: seq<Event>, id: string)
    requires Legal(Start(kinds), es) && id in After(Start(kinds), es).lives
    ensures var s, l := Start(kinds), After(Start(kinds), es).lives[id];
            && l.calls == CallsIn(s, es, id) && l.posts == RepliesIn(s, es, id) && l.times == TimesIn(s, es, id)
            && (l.status == SUCCESS <==> SettledIn(s, es, id))
            && (l.status == FAILED <==> RefusedIn(s, es, id))
  {
    hide Inv, Legal, After, CallsIn, RepliesIn, TimesIn, SettledIn, RefusedIn;
    StartHolds(kinds);
    NoHistory(kinds, id);
    HistoryRun(Start(kinds), es, id);
  }

  /** Once a query about an order was answered 0, it is never in the query list again. */
  lemma NeverQueriedAgain(kinds: seq<Kind>, x: seq<Event>, w: nat, y: seq<Event>, i: nat)
    requires Legal(Start(kinds), x) && Legal(Start(kinds), x + [Ask(w, 0)] + y)
    requires Enabled(After(Start(kinds), x), Ask(w, 0))
    requires i < |After(Start(kinds), x + [Ask(w, 0)] + y).query|
    ensures After(Start(kinds), x + [Ask(w, 0)] + y).query[i].order.coopOrderNo
            != After(Start(kinds), x).hands[w].info.order.coopOrderNo
  {
    hide Inv, Legal, After, Start, Step, Enabled;
    var s := After(Start(kinds), x);
    var e := Ask(w, 0);
    var t := After(Start(kinds), x + [e] + y);
    ReachedHolds(kinds, x);
    RunContinues(kinds, x + [e], y);
    RunSum(Start(kinds), x, [e]);
    OneEvent(s, e);
    AskDecides(s, w, 0);
    QueriedIsOpen(t, i);
  }

  lemma OneEvent(s: State, e: Event)
    requires Enabled(s, e)
    ensures Legal(s, [e]) && After(s, [e]) == Step(s, e)
  {
    assert [e][1..] == [];
  }

  lemma QueriedIsOpen(s: State, i: nat)
    requires Inv(s) && i < |s.query|
    ensures s.query[i].order.coopOrderNo in s.lives && s.lives[s.query[i].order.coopOrderNo].status == CREATE
  {
    hide OncePlaced, LifeOk;
    assert TicketOk(s, QueryQueue, s.query[i]);
  }
}
