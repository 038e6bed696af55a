/**
  What holds of every run of the pipeline, for any number of workers and any interleaving.
 */
module PipelineTheorems {
  import opened CText
  import opened Orders
  import opened Callback
  import opened Pipeline
  import opened PipelineInvariant
  import opened PipelineSteps
  import opened PipelineKeeps
  import opened PipelineProgress

  lemma ReachedHolds(kinds: seq<Kind>, es: seq<Event>)
    requires Legal(Start(kinds), es)
    ensures Inv(After(Start(kinds), es))
  {
    hide Inv;
    StartHolds(kinds);
    RunKeeps(Start(kinds), es);
  }

  // ---------- conservation ----------

  /** How often an order was created in a run. */
  function Creations(es: seq<Event>, id: string): nat
    decreases es
  {
    if es == [] then 0
    else (if es[0].Create? && es[0].order.coopOrderNo == id then 1 else 0) + Creations(es[1..], id)
  }

  /** How often a run failed to get a connection. */
  function Refusals(es: seq<Event>): nat
    decreases es
  {
    if es == [] then 0 else (if es[0].Connect? && !es[0].connected then 1 else 0) + Refusals(es[1..])
  }

  lemma CreationAdds(s: State, e: Event)
    requires Enabled(s, e) && e.Create?
    ensures Step(s, e).lives.Keys == s.lives.Keys + {e.order.coopOrderNo} && e.order.coopOrderNo !in s.lives
  {
  }

  lemma {:induction false} RunCounts(s: State, es: seq<Event>, id: string)
    requires Inv(s) && Legal(s, es)
    ensures (if id in s.lives then 1 else 0) + Creations(es, id) == if id in After(s, es).lives then 1 else 0
    ensures |After(s, es).lost| == |s.lost| + Refusals(es)
    decreases es
  {
    hide Inv;
    if es != [] {
      hide Step;
      StepKeeps(s, es[0]);
      StepMoves(s, es[0]);
      if es[0].Create? {
        CreationAdds(s, es[0]);
      }
      RunCounts(Step(s, es[0]), es[1..], id);
    }
  }

  /**
    An order is in as many places (lists, hands, finished, lost) as it was created, at most one; and
    as many orders are lost as connections were refused.
   */
  lemma OrdersAreConserved(kinds: seq<Kind>, es: seq<Event>, id: string)
    requires Legal(Start(kinds), es)
    ensures Places(After(Start(kinds), es), id) == Creations(es, id) <= 1
    ensures |After(Start(kinds), es).lost| == Refusals(es)
  {
    hide Places;
    StartHolds(kinds);
    ReachedHolds(kinds, es);
    RunCounts(Start(kinds), es, id);
  }

  // ---------- status ----------

  lemma RunContinues(kinds: seq<Kind>, x: seq<Event>, y: seq<Event>)
    requires Legal(Start(kinds), x + y)
    ensures Legal(Start(kinds), x) && Inv(After(Start(kinds), x)) && Inv(After(Start(kinds), x + y))
    ensures Legal(After(Start(kinds), x), y) && After(Start(kinds), x + y) == After(After(Start(kinds), x), y)
    ensures Advances(After(Start(kinds), x), After(Start(kinds), x + y))
  {
    hide Inv, Advances;
    RunSum(Start(kinds), x, y);
    ReachedHolds(kinds, x);
    ReachedHolds(kinds, x + y);
    RunAdvances(After(Start(kinds), x), y);
  }

  /**
    The status moves at most once, from CREATE, and by what Charge returned: an order for which some
    call returned 0 never fails, and only such an order succeeds, however the run goes on.
   */
  lemma StatusFollowsCharge(kinds: seq<Kind>, x: seq<Event>, y: seq<Event>, id: string)
    requires Legal(Start(kinds), x) && Legal(Start(kinds), x + y) && id in After(Start(kinds), x).lives
    ensures id in After(Start(kinds), x + y).lives
    ensures var a, b := After(Start(kinds), x).lives[id], After(Start(kinds), x + y).lives[id];
            && a.calls <= b.calls
            && (a.status != CREATE ==> b.status == a.status)
            && (0 in a.calls ==> b.status != FAILED)
            && (b.status == FAILED ==> 0 !in b.calls)
            && (b.status == SUCCESS ==> 0 in b.calls)
            && b.status in {CREATE, SUCCESS, FAILED}
  {
    hide OncePlaced, TicketOk, HandOk, FinishedOk, LostOk;
    RunContinues(kinds, x, y);
    assert OrderOk(After(Start(kinds), x + y), id);
  }

  /** At most five Charge calls are made for an order, of which none but the last returned 0. */
  lemma ChargedAtMostFiveTimes(kinds: seq<Kind>, es: seq<Event>, id: string)
    requires Legal(Start(kinds), es) && id in After(Start(kinds), es).lives
    ensures var l := After(Start(kinds), es).lives[id];
            |l.calls| <= 5 && forall i :: 0 <= i < |l.calls| - 1 ==> l.calls[i] != 0
  {
    hide OncePlaced, TicketOk, HandOk, FinishedOk, LostOk;
    ReachedHolds(kinds, es);
    assert OrderOk(After(Start(kinds), es), id);
  }

  // ---------- the notify list and the callbacks ----------

  /**
    Whatever waits in the notify list is settled. Its row holds the matching code and notify 0 exactly
    if the update with the status was committed or the order succeeded: rows are created with code 1.
   */
  lemma NotifyListIsSettled(kinds: seq<Kind>, es: seq<Event>, i: nat)
    requires Legal(Start(kinds), es) && i < |After(Start(kinds), es).notify|
    ensures var s := After(Start(kinds), es);
            var t := s.notify[i];
            var id := t.order.coopOrderNo;
            && id in s.lives && id in s.rows && t.status == s.lives[id].status
            && t.status in {SUCCESS, FAILED}
            && s.rows[id] == Row(if t.status == FAILED && s.lives[id].synced then 2 else 1, 0)
            && (s.rows[id] == Row(StatusCode(t.status), 0) <==> s.lives[id].synced || t.status == SUCCESS)
  {
    hide OncePlaced, HandOk, FinishedOk, LostOk, LifeOk;
    ReachedHolds(kinds, es);
    var s := After(Start(kinds), es);
    assert TicketOk(s, NotifyQueue, s.notify[i]);
  }

  /** TmallNotify never meets an order that has neither succeeded nor failed. */
  lemma NeverUnsettledInNotify(kinds: seq<Kind>, es: seq<Event>, w: nat)
    requires Legal(Start(kinds), es) && w < |After(Start(kinds), es).hands|
    ensures var h := After(Start(kinds), es).hands[w];
            !h.Idle() && h.Worker() == Notify ==> h.info.status in {SUCCESS, FAILED}
  {
    hide OncePlaced, FinishedOk, LostOk, LifeOk;
    ReachedHolds(kinds, es);
    assert HandOk(After(Start(kinds), es), After(Start(kinds), es).hands[w]);
  }

  /** Over a whole run an order gets at most five posts, of which only the last can have been answered. */
  lemma CallbacksAreBounded(kinds: seq<Kind>, es: seq<Event>, id: string)
    requires Legal(Start(kinds), es) && id in After(Start(kinds), es).lives
    ensures var l := After(Start(kinds), es).lives[id];
            && |l.posts| <= 5 && (forall i :: 0 <= i < |l.posts| - 1 ==> NoAnswer(l.posts[i]))
            && (l.posts != [] ==> l.order.userid == "tmall" && l.status in {SUCCESS, FAILED})
  {
    hide OncePlaced, TicketOk, HandOk, FinishedOk, LostOk;
    ReachedHolds(kinds, es);
    assert OrderOk(After(Start(kinds), es), id);
    forall r ensures Answer(r) == 0 ==> NoAnswer(r) {
      AnswerSays(r);
    }
  }

  /**
    A finished order was posted about exactly if it is a tmall order with its fields, and then until a
    reply answered or five times. Its row holds 0 exactly if it was not, or the last update was not
    committed; else 1 exactly if the last reply says T, and 2 for any other.
   */
  lemma FinishedIsRecorded(kinds: seq<Kind>, es: seq<Event>, i: nat)
    requires Legal(Start(kinds), es) && i < |After(Start(kinds), es).finished|
    ensures var s := After(Start(kinds), es);
            var id := s.finished[i];
            && id in s.lives && id in s.rows
            && var l, o, notify := s.lives[id], s.lives[id].order, s.rows[id].notify;
               && l.status in {SUCCESS, FAILED} && notify in {0, 1, 2}
               && (l.posts != [] <==> o.userid == "tmall" && o.coopId != "" && o.tbOrderNo != ""
                                      && o.coopOrderNo != "" && o.notifyUrl != "")
               && (notify != 0 <==> l.posts != [] && l.noted)
               && (notify == 1 ==> l.posts[|l.posts| - 1] == Reply(true, Element("T")))
               && (notify == 2 ==> l.posts[|l.posts| - 1] != Reply(true, Element("T")))
               && (l.posts != [] ==> |l.posts| == 5 || !NoAnswer(l.posts[|l.posts| - 1]))
  {
    hide OncePlaced, HandOk, LostOk, TicketOk, Answer, NoAnswer;
    ReachedHolds(kinds, es);
    var s := After(Start(kinds), es);
    assert FinishedOk(s, s.finished[i]);
    assert OrderOk(s, s.finished[i]);
    var l := s.lives[s.finished[i]];
    if l.posts != [] {
      AnswerSays(l.posts[|l.posts| - 1]);
      AnswerIsCode(l.posts[|l.posts| - 1]);
    }
  }

  /** A row with a notify code is never written again, and a finished order is never touched again. */
  lemma FinishedStaysAsItIs(kinds: seq<Kind>, x: seq<Event>, y: seq<Event>, id: string)
    requires Legal(Start(kinds), x) && Legal(Start(kinds), x + y) && id in After(Start(kinds), x).lives
    ensures var s, t := After(Start(kinds), x), After(Start(kinds), x + y);
            && id in s.rows && id in t.rows && id in t.lives
            && (s.rows[id].notify != 0 ==> t.rows[id] == s.rows[id])
            && (id in s.finished ==> id in t.finished && t.rows[id] == s.rows[id] && t.lives[id] == s.lives[id])
            && (id in s.lost ==> id in t.lost && t.rows[id] == s.rows[id] && t.lives[id] == s.lives[id])
  {
    hide OncePlaced, HandOk, LostOk, TicketOk, FinishedOk, LifeOk;
    RunContinues(kinds, x, y);
    assert OrderOk(After(Start(kinds), x), id);
  }

  /** An order dropped for want of a connection was settled, and nobody was told. */
  lemma LostWasSettled(kinds: seq<Kind>, es: seq<Event>, i: nat)
    requires Legal(Start(kinds), es) && i < |After(Start(kinds), es).lost|
    ensures var s := After(Start(kinds), es);
            var id := s.lost[i];
            && id in s.lives && id in s.rows && s.lives[id].status in {SUCCESS, FAILED}
            && s.lives[id].posts == [] && s.rows[id].notify == 0
  {
    hide OncePlaced, HandOk, TicketOk, FinishedOk, LifeOk;
    ReachedHolds(kinds, es);
    assert LostOk(After(Start(kinds), es), After(Start(kinds), es).lost[i]);
  }

  // ---------- time ----------

  /** The clock never goes back during the run. */
  predicate NeverBack(s: State, es: seq<Event>)
    requires Legal(s, es)
    decreases es
  {
    es == [] || (s.clock <= Step(s, es[0]).clock && NeverBack(Step(s, es[0]), es[1..]))
  }

  /** The state remembers whether it ever did. */
  lemma {:induction false} SteadyIsNeverBack(s: State, es: seq<Event>)
    requires Inv(s) && Legal(s, es)
    ensures After(s, es).steady <==> s.steady && NeverBack(s, es)
    decreases es
  {
    hide Inv;
    if es != [] {
      hide Step;
      StepKeeps(s, es[0]);
      StepMoves(s, es[0]);
      SteadyIsNeverBack(Step(s, es[0]), es[1..]);
    }
  }

  /**
    While the clock never goes back, an order is charged and then asked about at strictly increasing
    times, across all requeues.
   */
  lemma AskedLaterEachTime(kinds: seq<Kind>, es: seq<Event>, id: string)
    requires Legal(Start(kinds), es) && After(Start(kinds), es).steady && id in After(Start(kinds), es).lives
    ensures var ts := After(Start(kinds), es).lives[id].times;
            forall i, j :: 0 <= i < j < |ts| ==> ts[i] < ts[j]
  {
    hide OncePlaced, TicketOk, HandOk, FinishedOk, LostOk, Legal;
    ReachedHolds(kinds, es);
    assert OrderOk(After(Start(kinds), es), id);
    IncreasingAll(After(Start(kinds), es).lives[id].times);
  }

  lemma {:induction false} IncreasingAll(ts: seq<nat>)
    requires Increasing(ts)
    ensures forall i, j :: 0 <= i < j < |ts| ==> ts[i] < ts[j]
  {
    if |ts| > 1 {
      var rest := ts[..|ts| - 1];
      assert Increasing(rest);
      IncreasingAll(rest);
      forall i, j | 0 <= i < j < |ts| ensures ts[i] < ts[j] {
        assert i < |rest| && ts[i] == rest[i];
        assert j < |rest| ==> ts[j] == rest[j];
        assert ts[|ts| - 2] < ts[|ts| - 2 + 1];
      }
    }
  }

  // ---------- first in, first out ----------

  function Reversed<T>(s: seq<T>): seq<T> {
    if s == [] then [] else Reversed(s[1..]) + [s[0]]
  }

  lemma {:induction false} ReversedAt<T>(s: seq<T>)
    ensures |Reversed(s)| == |s| && forall k :: 0 <= k < |s| ==> Reversed(s)[k] == s[|s| - 1 - k]
  {
    if s != [] {
      ReversedAt(s[1..]);
    }
  }

  /** What was put in the query list is what was taken, and then what waits in it from the right. */
  predicate Fifo(s: State) {
    s.put == s.taken + Reversed(s.query)
  }

  lemma MovesKeepFifo(s: State, t: State)
    requires QueryMoves(s, t) && Fifo(s)
    ensures Fifo(t)
  {
    hide Reversed;
    ReversedAt(s.query);
    ReversedAt(t.query);
    assert t.put == t.taken + Reversed(t.query);
  }

  lemma {:induction false} RunKeepsFifo(s: State, es: seq<Event>)
    requires Inv(s) && Legal(s, es) && Fifo(s)
    ensures Fifo(After(s, es))
    decreases es
  {
    hide Inv, Fifo;
    if es != [] {
      hide Step;
      StepKeeps(s, es[0]);
      StepMoves(s, es[0]);
      MovesKeepFifo(s, Step(s, es[0]));
      RunKeepsFifo(Step(s, es[0]), es[1..]);
    }
  }

  /**
    An order at distance k from the popping end of the query list is the one the (k+1)-st successful
    pop takes, whoever pops; and those pops take different orders.
   */
  lemma WaitingIsServed(kinds: seq<Kind>, x: seq<Event>, y: seq<Event>, k: nat)
    requires Legal(Start(kinds), x) && Legal(Start(kinds), x + y) && k < |After(Start(kinds), x).query|
    requires |After(Start(kinds), x + y).taken| > |After(Start(kinds), x).taken| + k
    ensures var s, t := After(Start(kinds), x), After(Start(kinds), x + y);
            && t.taken[|s.taken| + k] == s.query[|s.query| - 1 - k]
            && AllDifferent(t.taken[|s.taken|..|s.taken| + k + 1])
  {
    hide Inv, Legal, After, Reversed, AllDifferent, Advances;
    RunContinues(kinds, x, y);
    assert Fifo(Start(kinds)) by { ReversedAt(Start(kinds).query); }
    hide Fifo;
    StartHolds(kinds);
    hide Start;
    RunKeepsFifo(Start(kinds), x);
    RunKeepsFifo(Start(kinds), x + y);
    TakenIsWaiting(After(Start(kinds), x), After(Start(kinds), x + y), k);
  }

  predicate AllDifferent(ts: seq<Ticket>) {
    forall i, j :: 0 <= i < j < |ts| ==> ts[i].order.coopOrderNo != ts[j].order.coopOrderNo
  }

  lemma TakenIsWaiting(s: State, t: State, k: nat)
    requires Inv(s) && Fifo(s) && Fifo(t) && Advances(s, t)
    requires k < |s.query| && |t.taken| > |s.taken| + k
    ensures t.taken[|s.taken| + k] == s.query[|s.query| - 1 - k]
    ensures AllDifferent(t.taken[|s.taken|..|s.taken| + k + 1])
  {
    hide Inv, Reversed, AllDifferent, Grows;
    ReversedAt(s.query);
    ReversedAt(t.query);
    var n, m := |s.taken|, |s.taken| + k + 1;
    assert s.put <= t.put;
    var xs, ys, qs, rs := s.taken, t.taken, Reversed(s.query), Reversed(t.query);
    hide *;
    SameSlice(xs, ys, qs, rs, n, m);
    assert ys[n..m][k] == qs[..k + 1][k];
    WaitingDiffer(s, k);
  }

  lemma SameSlice<T>(xs: seq<T>, ys: seq<T>, qs: seq<T>, rs: seq<T>, n: nat, m: nat)
    requires xs + qs <= ys + rs && n == |xs| && n <= m <= |ys| && m <= |xs + qs|
    ensures ys[n..m] == qs[..m - n]
  {
    assert ys[n..m] == (ys + rs)[n..m];
    assert (ys + rs)[n..m] == (xs + qs)[n..m];
  }

  /** The orders waiting in the query list are different orders. */
  lemma WaitingDiffer(s: State, k: nat)
    requires Inv(s) && k < |s.query| && |Reversed(s.query)| == |s.query|
    ensures AllDifferent(Reversed(s.query)[..k + 1])
  {
    hide AllOk, InQueue, InHands, Reversed, Among;
    ReversedAt(s.query);
    var ts := Reversed(s.query)[..k + 1];
    forall i, j | 0 <= i < j < |ts| ensures ts[i].order.coopOrderNo != ts[j].order.coopOrderNo {
      var id := ts[i].order.coopOrderNo;
      assert Places(s, id) <= 1;
      OnceInQueue(s.query, id, |s.query| - 1 - j, |s.query| - 1 - i);
    }
  }

  lemma {:induction false} OnceInQueue(q: seq<Ticket>, id: string, i: nat, j: nat)
    requires InQueue(q, id) <= 1 && i < j < |q| && q[j].order.coopOrderNo == id
    ensures q[i].order.coopOrderNo != id
  {
    if i > 0 {
      OnceInQueue(q[1..], id, i - 1, j - 1);
    } else if InQueue(q[1..], id) == 0 {
      NotInQueue(q[1..], id);
    }
  }

  // ---------- turns end ----------

  /** How many more steps of its own a worker takes at most until it is without an order. */
  function StepsLeft(h: Hand): nat {
    match h
    case Charging(_, tries, _) => (if tries < 5 then 5 - tries else 0) + 3
    case Checking(_) => 5
    case Asking(_) => 4
    case TimedOut(_) => 3
    case Updating(_, _) => 2
    case Pushing(_, _, _) => 1
    case Connecting(_) => 9
    case Reading(_) => 8
    case Posting(_, left, _) => left + 2
    case Recording(_) => 1
    case _ => 0
  }

  predicate IsBy(e: Event, w: nat) {
    !e.Create? && !e.Stop? && e.w == w
  }

  function OwnSteps(es: seq<Event>, w: nat): nat
    decreases es
  {
    if es == [] then 0 else (if IsBy(es[0], w) then 1 else 0) + OwnSteps(es[1..], w)
  }

  /** Only the hand of worker w changes, and if it holds an order, it comes nearer to the end of its turn. */
  predicate Nears(s: State, w: nat, t: State) {
    && w < |s.hands| == |t.hands| && t.hands == s.hands[w := t.hands[w]]
    && (!s.hands[w].Idle() ==> StepsLeft(t.hands[w]) < StepsLeft(s.hands[w]))
  }

  lemma DequeueNears(s: State, w: nat, now: nat)
    requires Enabled(s, Dequeue(w, now))
    ensures Nears(s, w, DequeueStep(s, w, now))
  {
    hide Answer, U32Minus, RowsAfter, MissingField, LifeOf, Deserialized;
  }

  lemma TryNears(s: State, w: nat, answer: Option<int>)
    requires Enabled(s, Try(w, answer))
    ensures Nears(s, w, TryStep(s, w, answer))
  {
    hide Answer, U32Minus, RowsAfter, MissingField, LifeOf, Deserialized;
  }

  lemma AskNears(s: State, w: nat, answer: int)
    requires Enabled(s, Ask(w, answer))
    ensures Nears(s, w, AskStep(s, w, answer))
  {
    hide Answer, U32Minus, RowsAfter, MissingField, LifeOf, Deserialized;
  }

  lemma UpdateNears(s: State, w: nat, outcome: DbOutcome)
    requires Enabled(s, Update(w, outcome))
    ensures Nears(s, w, UpdateStep(s, w, outcome))
  {
    hide Answer, U32Minus, RowsAfter, MissingField, LifeOf, Deserialized;
  }

  lemma PostNears(s: State, w: nat, reply: Reply)
    requires Enabled(s, Post(w, reply))
    ensures Nears(s, w, PostStep(s, w, reply))
  {
    hide Answer, U32Minus, RowsAfter, MissingField, LifeOf, Deserialized;
  }

  lemma StepNears(s: State, e: Event)
    requires Enabled(s, e) && !e.Create? && !e.Stop?
    ensures Nears(s, e.w, Step(s, e))
  {
    hide Nears, DequeueStep, TryStep, AskStep, UpdateStep, PostStep;
    match e
    case Dequeue(w, now) => DequeueNears(s, w, now);
    case Try(w, answer) => TryNears(s, w, answer);
    case Ask(w, answer) => AskNears(s, w, answer);
    case Update(w, outcome) => UpdateNears(s, w, outcome);
    case Post(w, reply) => PostNears(s, w, reply);
    case _ =>
      if e.Loop? || e.NothingDequeued? || e.Charged? || e.ReadClock? {
        EarlyNears(s, e);
      } else if e.Connect? || e.Enqueue? {
        LateNears(s, e);
      } else {
        NoticeNears(s, e);
      }
  }

  lemma EarlyNears(s: State, e: Event)
    requires Enabled(s, e) && (e.Loop? || e.NothingDequeued? || e.Charged? || e.ReadClock?)
    ensures Nears(s, e.w, Step(s, e))
  {
    hide U32Minus, LifeOf;
  }

  lemma LateNears(s: State, e: Event)
    requires Enabled(s, e) && (e.Connect? || e.Enqueue?)
    ensures Nears(s, e.w, Step(s, e))
  {
    hide Serialized;
  }

  lemma NoticeNears(s: State, e: Event)
    requires Enabled(s, e) && (e.ReadRow? || e.PostsDone?)
    ensures Nears(s, e.w, Step(s, e))
  {
    hide FinalCode;
  }

  lemma StepsRunOut(s: State, e: Event, w: nat)
    requires Enabled(s, e) && w < |s.hands| && !s.hands[w].Idle()
    ensures |Step(s, e).hands| == |s.hands|
    ensures !IsBy(e, w) ==> Step(s, e).hands[w] == s.hands[w]
    ensures IsBy(e, w) ==> StepsLeft(Step(s, e).hands[w]) < StepsLeft(s.hands[w])
  {
    if e.Create? {
      CreateIsStep(s, e);
    } else if !e.Stop? {
      hide Step, Enabled, StepsLeft;
      StepNears(s, e);
    }
  }

  /** Whatever the others do, a worker is without its order again after at most that many steps of its own. */
  lemma {:induction false} TurnsEnd(s: State, es: seq<Event>, w: nat) returns (k: nat)
    requires Legal(s, es) && w < |s.hands| && OwnSteps(es, w) >= StepsLeft(s.hands[w])
    ensures k <= |es| && Legal(s, es[..k]) && w < |After(s, es[..k]).hands| && After(s, es[..k]).hands[w].Idle()
    decreases es
  {
    if s.hands[w].Idle() {
      k := 0;
    } else {
      StepsRunOut(s, es[0], w);
      hide Step;
      k := TurnsEnd(Step(s, es[0]), es[1..], w);
      assert es[..k + 1][1..] == es[1..][..k];
      k := k + 1;
    }
  }

  /** Nine steps of its own are enough, from any point of any run. */
  lemma TurnsEndInNine(kinds: seq<Kind>, x: seq<Event>, y: seq<Event>, w: nat) returns (k: nat)
    requires Legal(Start(kinds), x) && Legal(Start(kinds), x + y)
    requires w < |After(Start(kinds), x).hands| && OwnSteps(y, w) >= 9
    ensures k <= |y| && Legal(Start(kinds), x + y[..k])
    ensures w < |After(Start(kinds), x + y[..k]).hands| && After(Start(kinds), x + y[..k]).hands[w].Idle()
  {
    hide Inv, Legal, After, Advances, Start;
    RunContinues(kinds, x, y);
    NineStepsAtMost(After(Start(kinds), x), w);
    k := TurnsEnd(After(Start(kinds), x), y, w);
    RunSum(Start(kinds), x, y[..k]);
  }

  lemma NineStepsAtMost(s: State, w: nat)
    requires Inv(s) && w < |s.hands|
    ensures StepsLeft(s.hands[w]) <= 9
  {
    if !s.hands[w].Idle() {
      hide Inv, LifeOk;
      HeldFacts(s, w);
    }
  }
}
