/**
  Every step of the pipeline keeps the invariant. The first lemmas treat the ways a step can move an
  order; the others supply what is particular to each event.
 */
module PipelineSteps {
  import opened CText
  import opened Orders
  import opened Callback
  import opened Pipeline
  import opened PipelineInvariant

  // ---------- ways to move ----------

  predicate SameQueues(s: State, t: State) {
    t.underway == s.underway && t.query == s.query && t.notify == s.notify
  }

  predicate SameGone(s: State, t: State) {
    t.finished == s.finished && t.lost == s.lost
  }

  predicate SameOrders(s: State, t: State) {
    t.lives.Keys == s.lives.Keys
  }

  /** The worker in hand w keeps its order. */
  lemma KeepsInHand(s: State, t: State, w: nat, h: Hand)
    requires Inv(s) && w < |s.hands| && !s.hands[w].Idle() && !h.Idle() && h.Id() == s.hands[w].Id()
    requires SameQueues(s, t) && SameGone(s, t) && SameOrders(s, t) && t.hands == s.hands[w := h]
    requires OnlyTouches(s, t, h.Id()) && OrderOk(t, h.Id()) && HandOk(t, h)
    ensures Inv(t)
  {
    hide InQueue, InHands, Among, OrderOk, HandOk, TicketOk, FinishedOk, LostOk, OnlyTouches;
    var id := h.Id();
    assert Places(s, id) <= 1;
    InHandOnly(s, w);
    OthersStay(s, t, id, w);
    OrdersStay(s, t, id);
    forall v | 0 <= v < |t.hands| ensures HandOk(t, t.hands[v]) {
      assert t.hands[v] == if v == w then h else s.hands[v];
    }
    forall k ensures Places(t, k) == if k in t.lives then 1 else 0 {
      assert Places(s, k) == if k in s.lives then 1 else 0;
      InHandsOfUpdate(s.hands, w, h, k);
    }
  }

  /** The worker in hand w puts its order at the left end of a list. */
  lemma Puts(s: State, t: State, w: nat, h: Hand, q: Queue, ticket: Ticket)
    requires Inv(s) && w < |s.hands| && !s.hands[w].Idle() && h.Idle()
    requires ticket.order.coopOrderNo == s.hands[w].Id()
    requires t.underway == (if q == Underway then [ticket] + s.underway else s.underway)
    requires t.query == (if q == QueryQueue then [ticket] + s.query else s.query)
    requires t.notify == (if q == NotifyQueue then [ticket] + s.notify else s.notify)
    requires SameGone(s, t) && SameOrders(s, t) && t.hands == s.hands[w := h]
    requires OnlyTouches(s, t, s.hands[w].Id()) && OrderOk(t, s.hands[w].Id()) && TicketOk(t, q, ticket)
    ensures Inv(t)
  {
    hide InQueue, InHands, Among, OrderOk, HandOk, TicketOk, FinishedOk, LostOk, OnlyTouches;
    var id := s.hands[w].Id();
    assert Places(s, id) <= 1;
    InHandOnly(s, w);
    OthersStay(s, t, id, w);
    OrdersStay(s, t, id);
    assert HandOk(t, h) by { IdleIsOk(t, h); }
    forall v | 0 <= v < |t.hands| ensures HandOk(t, t.hands[v]) {
      assert t.hands[v] == if v == w then h else s.hands[v];
    }
    forall k ensures Places(t, k) == if k in t.lives then 1 else 0 {
      assert Places(s, k) == if k in s.lives then 1 else 0;
      InHandsOfUpdate(s.hands, w, h, k);
      InQueueOfPush(ticket, QueueAt(s, q), k);
    }
  }

  lemma IdleIsOk(s: State, h: Hand)
    requires h.Idle()
    ensures HandOk(s, h)
  {
  }

  function QueueAt(s: State, q: Queue): seq<Ticket> {
    match q case Underway => s.underway case QueryQueue => s.query case NotifyQueue => s.notify
  }

  /** The worker in hand w is done with its order, or drops it. */
  lemma LetsGo(s: State, t: State, w: nat, h: Hand, done: bool)
    requires Inv(s) && w < |s.hands| && !s.hands[w].Idle() && h.Idle()
    requires SameQueues(s, t) && SameOrders(s, t) && t.hands == s.hands[w := h]
    requires t.finished == (if done then s.finished + [s.hands[w].Id()] else s.finished)
    requires t.lost == (if done then s.lost else s.lost + [s.hands[w].Id()])
    requires OnlyTouches(s, t, s.hands[w].Id()) && OrderOk(t, s.hands[w].Id())
    requires if done then FinishedOk(t, s.hands[w].Id()) else LostOk(t, s.hands[w].Id())
    ensures Inv(t)
  {
    hide InQueue, InHands, OrderOk, HandOk, TicketOk, FinishedOk, LostOk, OnlyTouches, Places;
    var id := s.hands[w].Id();
    assert Places(s, id) <= 1;
    InHandOnly(s, w);
    OthersStay(s, t, id, w);
    OrdersStay(s, t, id);
    assert HandOk(t, h) by { IdleIsOk(t, h); }
    forall v | 0 <= v < |t.hands| ensures HandOk(t, t.hands[v]) {
      assert t.hands[v] == if v == w then h else s.hands[v];
    }
    forall i | 0 <= i < |t.finished| ensures FinishedOk(t, t.finished[i]) {
      assert t.finished[i] == if i < |s.finished| then s.finished[i] else id;
    }
    forall i | 0 <= i < |t.lost| ensures LostOk(t, t.lost[i]) {
      assert t.lost[i] == if i < |s.lost| then s.lost[i] else id;
    }
    LetsGoCounts(s, t, w, h, done);
  }

  lemma LetsGoCounts(s: State, t: State, w: nat, h: Hand, done: bool)
    requires OncePlaced(s) && w < |s.hands| && !s.hands[w].Idle() && h.Idle()
    requires SameQueues(s, t) && SameOrders(s, t) && t.hands == s.hands[w := h]
    requires t.finished == (if done then s.finished + [s.hands[w].Id()] else s.finished)
    requires t.lost == (if done then s.lost else s.lost + [s.hands[w].Id()])
    ensures OncePlaced(t)
  {
    hide InQueue, InHands;
    forall k ensures Places(t, k) == if k in t.lives then 1 else 0 {
      assert Places(s, k) == if k in s.lives then 1 else 0;
      InHandsOfUpdate(s.hands, w, h, k);
    }
  }

  function Popped(s: State, k: Kind): State
    requires QueueOf(s, k) != []
  {
    match k
    case Charge => s.(underway := s.underway[..|s.underway| - 1])
    case Query => s.(query := s.query[..|s.query| - 1])
    case Notify => s.(notify := s.notify[..|s.notify| - 1])
  }

  lemma PoppedIsOk(s: State, k: Kind)
    requires Inv(s) && QueueOf(s, k) != []
    ensures AllOk(Popped(s, k))
    ensures var q := QueueOf(s, k);
            forall id :: Places(Popped(s, k), id) == Places(s, id) - if q[|q| - 1].order.coopOrderNo == id then 1 else 0
  {
    hide InQueue, InHands, Among, OrderOk, HandOk, TicketOk, FinishedOk, LostOk;
    var t := Popped(s, k);
    var q := QueueOf(s, k);
    forall id ensures Places(t, id) == Places(s, id) - if q[|q| - 1].order.coopOrderNo == id then 1 else 0 {
      InQueueOfPop(q, id);
    }
    FewerAreOk(s, t);
  }

  /** With the same records, what is found in the same places is still all right. */
  lemma FewerAreOk(s: State, t: State)
    requires AllOk(s)
    requires t.lives == s.lives && t.rows == s.rows && t.steady == s.steady && t.clock == s.clock
    requires t.underway <= s.underway && t.query <= s.query && t.notify <= s.notify
    requires |t.hands| == |s.hands| && forall v :: 0 <= v < |t.hands| ==> t.hands[v] == s.hands[v] || t.hands[v].Idle()
    requires t.finished == s.finished && t.lost == s.lost
    ensures AllOk(t)
  {
    forall id | id in t.lives ensures OrderOk(t, id) {
      assert OrderOk(s, id);
    }
    SameTickets(s, t, Underway, s.underway);
    SameTickets(s, t, QueryQueue, s.query);
    SameTickets(s, t, NotifyQueue, s.notify);
    forall w | 0 <= w < |t.hands| ensures HandOk(t, t.hands[w]) {
      assert HandOk(s, s.hands[w]);
    }
    forall i | 0 <= i < |t.finished| ensures FinishedOk(t, t.finished[i]) {
      assert FinishedOk(s, s.finished[i]);
    }
    forall i | 0 <= i < |t.lost| ensures LostOk(t, t.lost[i]) {
      assert LostOk(s, s.lost[i]);
    }
  }

  lemma SameTickets(s: State, t: State, q: Queue, ts: seq<Ticket>)
    requires QueueOk(s, q, ts)
    requires t.lives == s.lives && t.rows == s.rows && t.steady == s.steady && t.clock == s.clock
    ensures QueueOk(t, q, ts)
  {
    forall i | 0 <= i < |ts| ensures TicketOk(t, q, ts[i]) {
      assert TicketOk(s, q, ts[i]);
    }
  }

  /** An idle worker takes the order at the right end of its list into its hand. */
  lemma Takes(s: State, t: State, w: nat, k: Kind, h: Hand)
    requires Inv(s) && w < |s.hands| && s.hands[w].Idle() && !h.Idle() && QueueOf(s, k) != []
    requires QueueOf(s, k)[|QueueOf(s, k)| - 1].order.coopOrderNo == h.Id()
    requires SameQueues(Popped(s, k), t) && SameGone(s, t) && SameOrders(s, t) && t.hands == s.hands[w := h]
    requires OnlyTouches(s, t, h.Id()) && OrderOk(t, h.Id()) && HandOk(t, h)
    ensures Inv(t)
  {
    hide InQueue, InHands, Among, OrderOk, HandOk, TicketOk, FinishedOk, LostOk, QueueOf, Places, OnlyTouches, Popped;
    var id, p := h.Id(), Popped(s, k);
    PoppedIsOk(s, k);
    assert Places(s, id) <= 1;
    assert Places(p, id) == 0;
    PoppedFrame(s, t, k, id);
    Nowhere(p, id);
    OthersStay(p, t, id, -1);
    OrdersStay(p, t, id);
    forall v | 0 <= v < |t.hands| ensures HandOk(t, t.hands[v]) {
      assert t.hands[v] == if v == w then h else s.hands[v];
    }
    TakesCounts(s, t, w, k, h);
  }

  lemma PoppedFrame(s: State, t: State, k: Kind, id: string)
    requires QueueOf(s, k) != [] && OnlyTouches(s, t, id)
    ensures var p := Popped(s, k);
            && OnlyTouches(p, t, id) && p.lives == s.lives && p.hands == s.hands
            && p.finished == s.finished && p.lost == s.lost
  {
  }

  lemma TakesCounts(s: State, t: State, w: nat, k: Kind, h: Hand)
    requires OncePlaced(s) && w < |s.hands| && s.hands[w].Idle() && !h.Idle() && QueueOf(s, k) != []
    requires forall id :: Places(Popped(s, k), id) == Places(s, id) - if h.Id() == id then 1 else 0
    requires SameQueues(Popped(s, k), t) && SameGone(s, t) && SameOrders(s, t) && t.hands == s.hands[w := h]
    ensures OncePlaced(t)
  {
    hide InQueue, InHands, Among, QueueOf;
    forall j ensures Places(t, j) == if j in t.lives then 1 else 0 {
      assert Places(s, j) == if j in s.lives then 1 else 0;
      assert Places(Popped(s, k), j) == Places(s, j) - if h.Id() == j then 1 else 0;
      InHandsOfUpdate(s.hands, w, h, j);
    }
  }

  /** A worker without an order stays without one. */
  lemma StaysIdle(s: State, t: State, w: nat, h: Hand)
    requires Inv(s) && w < |s.hands| && s.hands[w].Idle() && h.Idle() && t == s.(hands := s.hands[w := h])
    ensures Inv(t)
  {
    hide InQueue, InHands, Among;
    FewerAreOk(s, t);
    forall k ensures Places(t, k) == if k in t.lives then 1 else 0 {
      assert Places(s, k) == if k in s.lives then 1 else 0;
      InHandsOfUpdate(s.hands, w, h, k);
    }
  }
}
