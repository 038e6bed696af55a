/**
  What every reachable state of the pipeline satisfies: each order is in one place, and the place
  it is in says how far it has come.
 */
module PipelineInvariant {
  import opened CText
  import opened Orders
  import opened Callback
  import opened Pipeline

  // ---------- one place for each order ----------

  function InQueue(q: seq<Ticket>, id: string): nat {
    if q == [] then 0 else (if q[0].order.coopOrderNo == id then 1 else 0) + InQueue(q[1..], id)
  }

  function InHand(h: Hand, id: string): nat {
    if h.Idle() || h.Id() != id then 0 else 1
  }

  function InHands(hands: seq<Hand>, id: string): nat {
    if hands == [] then 0 else InHand(hands[0], id) + InHands(hands[1..], id)
  }

  function Among(ids: seq<string>, id: string): nat {
    multiset(ids)[id]
  }

  /** How often an order occurs in all the places an order can be in. */
  function Places(s: State, id: string): nat {
    InQueue(s.underway, id) + InQueue(s.query, id) + InQueue(s.notify, id) + InHands(s.hands, id)
    + Among(s.finished, id) + Among(s.lost, id)
  }

  lemma {:induction false} InQueueOfPop(q: seq<Ticket>, id: string)
    requires q != []
    ensures InQueue(q, id) == InQueue(q[..|q| - 1], id) + if q[|q| - 1].order.coopOrderNo == id then 1 else 0
  {
    if |q| > 1 {
      InQueueOfPop(q[1..], id);
      assert q[1..][..|q| - 2] == q[..|q| - 1][1..];
    } else {
      assert q[1..] == [] && q[..0] == [];
    }
  }

  lemma InQueueOfPush(t: Ticket, q: seq<Ticket>, id: string)
    ensures InQueue([t] + q, id) == (if t.order.coopOrderNo == id then 1 else 0) + InQueue(q, id)
  {
    assert ([t] + q)[1..] == q;
  }

  lemma {:induction false} NotInQueue(q: seq<Ticket>, id: string)
    requires InQueue(q, id) == 0
    ensures forall i :: 0 <= i < |q| ==> q[i].order.coopOrderNo != id
  {
    if q != [] {
      NotInQueue(q[1..], id);
      assert q == [q[0]] + q[1..];
    }
  }

  lemma {:induction false} InHandsOfUpdate(hands: seq<Hand>, w: nat, h: Hand, id: string)
    requires w < |hands|
    ensures InHands(hands[w := h], id) == InHands(hands, id) - InHand(hands[w], id) + InHand(h, id)
    ensures InHand(hands[w], id) <= InHands(hands, id)
  {
    var after := hands[w := h];
    if w == 0 {
      assert after[1..] == hands[1..];
    } else {
      InHandsOfUpdate(hands[1..], w - 1, h, id);
      assert after[1..] == hands[1..][w - 1 := h];
    }
  }

  lemma {:induction false} NotInHands(hands: seq<Hand>, id: string)
    requires InHands(hands, id) == 0
    ensures forall v :: 0 <= v < |hands| ==> InHand(hands[v], id) == 0
  {
    if hands != [] {
      NotInHands(hands[1..], id);
      assert hands == [hands[0]] + hands[1..];
    }
  }

  // ---------- what a place says about an order ----------

  predicate Increasing(ts: seq<nat>) {
    forall i :: 0 <= i < |ts| - 1 ==> ts[i] < ts[i + 1]
  }

  /** Only the last value may be the one that ends the loop. */
  predicate EndsWithFirstZero(calls: seq<int>) {
    forall i :: 0 <= i < |calls| - 1 ==> calls[i] != 0
  }

  predicate AnsweredOnlyLast(posts: seq<Reply>) {
    forall i :: 0 <= i < |posts| - 1 ==> Answer(posts[i]) == 0
  }

  /** No further post is made: the last one was answered, or it was the last one there may be. */
  predicate Exhausted(posts: seq<Reply>)
    requires posts != []
  {
    |posts| == MAX_POSTS || Answer(posts[|posts| - 1]) != 0
  }

  /** What holds of an order wherever it is; `steady` says that the clock has not gone back so far. */
  predicate LifeOk(l: Life, r: Row, steady: bool, clock: nat) {
    && |l.calls| <= 5 && EndsWithFirstZero(l.calls)
    && l.status in {CREATE, SUCCESS, FAILED}
    && (l.status == SUCCESS ==> 0 in l.calls)
    && (l.status == FAILED ==> 0 !in l.calls)
    && (steady ==> Increasing(l.times) && (l.times != [] ==> l.times[|l.times| - 1] <= clock))
    && |l.posts| <= MAX_POSTS && AnsweredOnlyLast(l.posts)
    && (l.posts != [] ==> l.order.userid == "tmall" && Settled(l.status) && !MissingField(l.order))
  }

  /** The row as it was created. */
  predicate RowAsCreated(l: Life, r: Row) {
    l.synced && l.noted && r == Row(1, 0)
  }

  /** The row after the update with the order's status, which changes nothing when it is not committed. */
  predicate RowAsSettled(l: Life, r: Row) {
    l.noted && r == Row(if l.synced then StatusCode(l.status) else 1, 0)
  }

  /** Not charged yet. */
  predicate IsNew(l: Life, r: Row) {
    l.status == CREATE && l.calls == [] && l.times == [] && l.posts == [] && RowAsCreated(l, r)
  }

  /** Charged successfully and not settled yet; `last` is the last time it was handled. */
  predicate IsWaiting(l: Life, r: Row, last: nat, steady: bool) {
    && l.status == CREATE && 0 in l.calls && l.posts == [] && RowAsCreated(l, r)
    && l.times != [] && (steady ==> last == l.times[|l.times| - 1])
  }

  /** Settled, with its row brought up to date, and not posted about yet. */
  predicate IsSettled(l: Life, r: Row) {
    Settled(l.status) && l.posts == [] && RowAsSettled(l, r)
  }

  /** Settled, but the row still as created. */
  predicate IsUnrecorded(l: Life, r: Row) {
    Settled(l.status) && l.posts == [] && RowAsCreated(l, r)
  }

  /** Done with: the notify code is in the row exactly if something was posted and the update committed. */
  predicate IsFinished(l: Life, r: Row) {
    && Settled(l.status)
    && (l.posts != [] <==> l.order.userid == "tmall" && !MissingField(l.order))
    && (l.posts != [] ==> Exhausted(l.posts))
    && r == (if l.posts != [] && l.noted then Row(StatusCode(l.status), FinalCode(Answer(l.posts[|l.posts| - 1])))
             else Row(if l.synced then StatusCode(l.status) else 1, 0))
  }

  predicate TicketFits(q: Queue, t: Ticket, l: Life, r: Row, steady: bool) {
    && t.order == l.order && t.status == l.status
    && match q
       case Underway => IsNew(l, r)
       case QueryQueue => IsWaiting(l, r, t.lastOpTime, steady)
       case NotifyQueue => IsSettled(l, r)
  }

  predicate HandFits(h: Hand, l: Life, r: Row, steady: bool, clock: nat)
    requires !h.Idle()
  {
    && h.info.order == l.order && h.info.status == l.status
    && (steady ==> h.info.lastOpTime <= clock || !h.Asking?)
    && match h
       case Charging(i, tries, ret) =>
         && l.status == CREATE && |l.calls| <= tries <= 5 && (ret == 0 <==> 0 in l.calls)
         && l.posts == [] && RowAsCreated(l, r) && l.times == [i.lastOpTime]
       case Checking(i) => i.notify == 0 && IsWaiting(l, r, i.lastOpTime, steady)
       case Asking(i) =>
         && i.notify == 0 && IsWaiting(l, r, if l.times == [] then 0 else l.times[|l.times| - 1], steady)
         && (steady ==> l.times[|l.times| - 1] < i.lastOpTime)
       case TimedOut(i) => i.notify == 0 && IsUnrecorded(l, r)
       case Updating(k, i) => k != Notify && i.notify == 0 && IsUnrecorded(l, r)
       case Pushing(k, i, q) =>
         && k != Notify
         && (if q == QueryQueue then IsWaiting(l, r, i.lastOpTime, steady) else q == NotifyQueue && IsSettled(l, r))
       case Connecting(_) => IsSettled(l, r)
       case Reading(_) => IsSettled(l, r)
       case Posting(i, left, code) =>
         && Settled(l.status) && RowAsSettled(l, r)
         && i.order.userid == "tmall" && |l.posts| + left == MAX_POSTS
         && code == (if l.posts == [] then 0 else Answer(l.posts[|l.posts| - 1]))
       case Recording(i) =>
         && Settled(l.status) && RowAsSettled(l, r)
         && i.order.userid == "tmall" && l.posts != [] && Exhausted(l.posts)
         && i.notify == FinalCode(Answer(l.posts[|l.posts| - 1]))
  }

  // ---------- the same over a state ----------

  predicate Known(s: State, id: string) {
    id in s.lives && id in s.rows && s.lives[id].order.coopOrderNo == id
  }

  predicate TicketOk(s: State, q: Queue, t: Ticket) {
    var id := t.order.coopOrderNo;
    Known(s, id) && TicketFits(q, t, s.lives[id], s.rows[id], s.steady)
  }

  predicate HandOk(s: State, h: Hand) {
    h.Idle() || (Known(s, h.Id()) && HandFits(h, s.lives[h.Id()], s.rows[h.Id()], s.steady, s.clock))
  }

  predicate FinishedOk(s: State, id: string) {
    Known(s, id) && IsFinished(s.lives[id], s.rows[id])
  }

  predicate LostOk(s: State, id: string) {
    Known(s, id) && Settled(s.lives[id].status) && s.rows[id].notify == 0 && s.lives[id].posts == []
  }

  predicate OrderOk(s: State, id: string) {
    Known(s, id) && LifeOk(s.lives[id], s.rows[id], s.steady, s.clock)
  }

  ghost predicate QueueOk(s: State, q: Queue, ts: seq<Ticket>) {
    forall i :: 0 <= i < |ts| ==> TicketOk(s, q, ts[i])
  }

  ghost predicate AllOk(s: State) {
    && (forall id :: id in s.lives ==> OrderOk(s, id))
    && QueueOk(s, Underway, s.underway) && QueueOk(s, QueryQueue, s.query) && QueueOk(s, NotifyQueue, s.notify)
    && (forall w :: 0 <= w < |s.hands| ==> HandOk(s, s.hands[w]))
    && (forall i :: 0 <= i < |s.finished| ==> FinishedOk(s, s.finished[i]))
    && (forall i :: 0 <= i < |s.lost| ==> LostOk(s, s.lost[i]))
  }

  ghost predicate OncePlaced(s: State) {
    forall id :: Places(s, id) == if id in s.lives then 1 else 0
  }

  /** The invariant. */
  ghost predicate Inv(s: State) {
    OncePlaced(s) && AllOk(s)
  }

  // ---------- steps touch one order ----------

  /** An order that is nowhere but in hand w, if in any hand. */
  ghost predicate Elsewhere(s: State, id: string, w: int) {
    && (forall i :: 0 <= i < |s.underway| ==> s.underway[i].order.coopOrderNo != id)
    && (forall i :: 0 <= i < |s.query| ==> s.query[i].order.coopOrderNo != id)
    && (forall i :: 0 <= i < |s.notify| ==> s.notify[i].order.coopOrderNo != id)
    && (forall v :: 0 <= v < |s.hands| && v != w ==> InHand(s.hands[v], id) == 0)
    && (forall i :: 0 <= i < |s.finished| ==> s.finished[i] != id)
    && (forall i :: 0 <= i < |s.lost| ==> s.lost[i] != id)
  }

  lemma NotGone(ids: seq<string>, id: string)
    requires Among(ids, id) == 0
    ensures forall i :: 0 <= i < |ids| ==> ids[i] != id
  {
    forall i | 0 <= i < |ids| ensures ids[i] != id {
      assert ids[i] in multiset(ids);
    }
  }

  /** The order in a hand is nowhere else. */
  lemma InHandOnly(s: State, w: nat)
    requires w < |s.hands| && !s.hands[w].Idle() && Places(s, s.hands[w].Id()) <= 1
    ensures Elsewhere(s, s.hands[w].Id(), w)
  {
    hide InQueue, InHands, Among;
    var id := s.hands[w].Id();
    var rest := s.hands[w := Top(Charge)];
    InHandsOfUpdate(s.hands, w, Top(Charge), id);
    NotInQueue(s.underway, id);
    NotInQueue(s.query, id);
    NotInQueue(s.notify, id);
    NotGone(s.finished, id);
    NotGone(s.lost, id);
    NotInHands(rest, id);
    forall v | 0 <= v < |s.hands| && v != w ensures InHand(s.hands[v], id) == 0 {
      assert rest[v] == s.hands[v];
    }
  }

  /** An order that is not known is nowhere. */
  lemma Nowhere(s: State, id: string)
    requires Places(s, id) == 0
    ensures Elsewhere(s, id, -1)
  {
    hide InQueue, InHands, Among;
    NotInQueue(s.underway, id);
    NotInQueue(s.query, id);
    NotInQueue(s.notify, id);
    NotInHands(s.hands, id);
    NotGone(s.finished, id);
    NotGone(s.lost, id);
  }

  /** Nothing changes but the records of one order, and the clock. */
  predicate OnlyTouches(s: State, t: State, id: string) {
    && (forall k :: k in s.lives && k != id ==> k in t.lives && t.lives[k] == s.lives[k])
    && (forall k :: k in s.rows && k != id ==> k in t.rows && t.rows[k] == s.rows[k])
    && (t.steady ==> s.steady && s.clock <= t.clock)
  }

  lemma KnownStays(s: State, t: State, id: string, k: string)
    requires OnlyTouches(s, t, id) && k != id
    ensures Known(s, k) ==> Known(t, k) && t.lives[k] == s.lives[k] && t.rows[k] == s.rows[k]
  {
  }

  lemma QueueStays(s: State, t: State, id: string, q: Queue, ts: seq<Ticket>)
    requires OnlyTouches(s, t, id) && QueueOk(s, q, ts)
    requires forall i :: 0 <= i < |ts| ==> ts[i].order.coopOrderNo != id
    ensures QueueOk(t, q, ts)
  {
    forall i | 0 <= i < |ts| ensures TicketOk(t, q, ts[i]) {
      assert TicketOk(s, q, ts[i]);
      KnownStays(s, t, id, ts[i].order.coopOrderNo);
    }
  }

  lemma HandStays(s: State, t: State, id: string, h: Hand)
    requires OnlyTouches(s, t, id) && HandOk(s, h) && InHand(h, id) == 0
    ensures HandOk(t, h)
  {
    if !h.Idle() {
      KnownStays(s, t, id, h.Id());
    }
  }

  lemma OrdersStay(s: State, t: State, id: string)
    requires OnlyTouches(s, t, id)
    requires forall k :: k in s.lives ==> OrderOk(s, k)
    requires forall k :: k in t.lives ==> k == id || k in s.lives
    requires id in t.lives ==> OrderOk(t, id)
    ensures forall k :: k in t.lives ==> OrderOk(t, k)
  {
    forall k | k in t.lives ensures OrderOk(t, k) {
      if k != id {
        assert OrderOk(s, k);
        KnownStays(s, t, id, k);
      }
    }
  }

  lemma GoneStay(s: State, t: State, id: string)
    requires OnlyTouches(s, t, id)
    requires forall i :: 0 <= i < |s.finished| ==> FinishedOk(s, s.finished[i]) && s.finished[i] != id
    requires forall i :: 0 <= i < |s.lost| ==> LostOk(s, s.lost[i]) && s.lost[i] != id
    ensures forall i :: 0 <= i < |s.finished| ==> FinishedOk(t, s.finished[i])
    ensures forall i :: 0 <= i < |s.lost| ==> LostOk(t, s.lost[i])
  {
    forall i | 0 <= i < |s.finished| ensures FinishedOk(t, s.finished[i]) {
      assert FinishedOk(s, s.finished[i]);
      KnownStays(s, t, id, s.finished[i]);
    }
    forall i | 0 <= i < |s.lost| ensures LostOk(t, s.lost[i]) {
      assert LostOk(s, s.lost[i]);
      KnownStays(s, t, id, s.lost[i]);
    }
  }

  /** Everything but the hand w and the order it holds is as before. */
  lemma OthersStay(s: State, t: State, id: string, w: int)
    requires AllOk(s) && Elsewhere(s, id, w) && OnlyTouches(s, t, id)
    ensures QueueOk(t, Underway, s.underway) && QueueOk(t, QueryQueue, s.query) && QueueOk(t, NotifyQueue, s.notify)
    ensures forall v :: 0 <= v < |s.hands| && v != w ==> HandOk(t, s.hands[v])
    ensures forall i :: 0 <= i < |s.finished| ==> FinishedOk(t, s.finished[i])
    ensures forall i :: 0 <= i < |s.lost| ==> LostOk(t, s.lost[i])
  {
    hide Places, TicketOk, HandOk, OnlyTouches, FinishedOk, LostOk;
    QueueStays(s, t, id, Underway, s.underway);
    QueueStays(s, t, id, QueryQueue, s.query);
    QueueStays(s, t, id, NotifyQueue, s.notify);
    forall v | 0 <= v < |s.hands| && v != w ensures HandOk(t, s.hands[v]) {
      HandStays(s, t, id, s.hands[v]);
    }
    GoneStay(s, t, id);
  }
}
