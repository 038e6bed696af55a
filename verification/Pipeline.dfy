/**
  src/OrderHandler.cpp as a step system: any number of charge, query and notify workers move orders
  between three redis lists (LPUSH on the left, RPOP on the right, src/RedisClient.cpp) and update
  one table row per order. Every dequeue, upstream call, post, row update, connection and enqueue is a
  step of its own, and so is the clock reading of the query worker; a run is any interleaving of them.
  The two other clock readings belong to a step next to them: that of the charge worker to its dequeue,
  and that of serialising to the enqueue.
 */
module Pipeline {
  import opened CText
  import opened Orders
  import opened Callback

  const TIMEOUT_TIME := 1800

  datatype Kind = Charge | Query | Notify
  datatype Queue = Underway | QueryQueue | NotifyQueue

  /** Where a worker is in its loop, and the order it has in hand. */
  datatype Hand =
    | Top(kind: Kind)                               // at the head of the loop
    | Polling(kind: Kind)                           // about to dequeue
    | Exited(kind: Kind)                            // returned
    | Charging(info: Info, tries: nat, ret: int)    // in ChargeRequest
    | Checking(info: Info)                          // query: about to read the clock
    | Asking(info: Info)                            // query: about to call QueryRequest
    | TimedOut(info: Info)                          // query: about to ask for a connection
    | Updating(kind: Kind, info: Info)              // charge, query: about to call UpdateOrderStatus
    | Pushing(kind: Kind, info: Info, target: Queue)// charge, query: about to enqueue
    | Connecting(info: Info)                        // notify: about to ask for a connection
    | Reading(info: Info)                           // notify: about to read the row's notify code
    | Posting(info: Info, left: nat, code: int)     // notify: in the loop of TmallNotify
    | Recording(info: Info)                         // notify: about to call UpdateStatus
  {
    predicate Idle() {
      Top? || Polling? || Exited?
    }

    function Id(): string
      requires !Idle()
    {
      info.order.coopOrderNo
    }

    function Worker(): Kind {
      match this
      case Top(k) => k
      case Polling(k) => k
      case Exited(k) => k
      case Charging(_, _, _) => Charge
      case Checking(_) => Query
      case Asking(_) => Query
      case TimedOut(_) => Query
      case Updating(k, _) => k
      case Pushing(k, _, _) => k
      case Connecting(_) => Notify
      case Reading(_) => Notify
      case Posting(_, _, _) => Notify
      case Recording(_) => Notify
    }
  }

  /**
    The history of one order: what its Charge calls returned, when it was charged and then asked
    about, the replies to its posts, and whether the two updates of its row, with its status and
    with its notify code, were committed if they were made.
   */
  datatype Life = Life(
    order: Order, status: OrderStatus, calls: seq<int>, times: seq<nat>, posts: seq<Reply>, synced: bool, noted: bool)

  datatype State = State(
    underway: seq<Ticket>, query: seq<Ticket>, notify: seq<Ticket>,  // index 0 is the left end
    hands: seq<Hand>,
    rows: map<string, Row>,
    lives: map<string, Life>,
    finished: seq<string>, lost: seq<string>,
    stopped: bool,
    clock: nat, steady: bool,                 // the last time read; whether time never went back
    put: seq<Ticket>, taken: seq<Ticket>)     // everything pushed to and popped from the query list

  datatype Event =
    | Create(order: Order, now: nat)
    | Stop
    | Loop(w: nat)
    | Dequeue(w: nat, now: nat)
    | NothingDequeued(w: nat, alive: bool)
    | Try(w: nat, result: Option<int>)
    | Charged(w: nat)
    | ReadClock(w: nat, now: nat)
    | Ask(w: nat, answer: int)
    | Connect(w: nat, connected: bool)
    | Update(w: nat, outcome: DbOutcome)
    | Enqueue(w: nat, now: nat)
    | ReadRow(w: nat, readable: bool)
    | Post(w: nat, reply: Reply)
    | PostsDone(w: nat)

  function QueueOf(s: State, k: Kind): seq<Ticket> {
    match k case Charge => s.underway case Query => s.query case Notify => s.notify
  }

  /** Which events the code can take next. */
  predicate Enabled(s: State, e: Event) {
    match e
    case Create(o, _) => o.coopOrderNo !in s.lives && o.coopOrderNo !in s.rows
    case Stop => true
    case Loop(w) => w < |s.hands| && s.hands[w].Top?
    case Dequeue(w, _) => w < |s.hands| && s.hands[w].Polling? && QueueOf(s, s.hands[w].kind) != []
    case NothingDequeued(w, _) => w < |s.hands| && s.hands[w].Polling?
    case Try(w, _) => w < |s.hands| && s.hands[w].Charging? && MayTry(s.hands[w])
    case Charged(w) => w < |s.hands| && s.hands[w].Charging? && !MayTry(s.hands[w])
    case ReadClock(w, _) => w < |s.hands| && s.hands[w].Checking?
    case Ask(w, _) => w < |s.hands| && s.hands[w].Asking?
    case Connect(w, _) => w < |s.hands| && (s.hands[w].TimedOut? || s.hands[w].Connecting?)
    case Update(w, _) => w < |s.hands| && (s.hands[w].Updating? || s.hands[w].Recording?)
    case Enqueue(w, _) => w < |s.hands| && s.hands[w].Pushing?
    case ReadRow(w, _) => w < |s.hands| && s.hands[w].Reading?
    case Post(w, _) => w < |s.hands| && s.hands[w].Posting? && MayPost(s.hands[w])
    case PostsDone(w) => w < |s.hands| && s.hands[w].Posting? && !MayPost(s.hands[w])
  }

  /** The condition of the inner loop of ChargeRequest, inside the loop over the channels. */
  predicate MayTry(h: Hand)
    requires h.Charging?
  {
    h.info.order.channels != [] && h.tries < 5 && h.ret != 0
  }

  /** The condition of the loop of TmallNotify. */
  predicate MayPost(h: Hand)
    requires h.Posting?
  {
    h.left > 0 && h.code == 0
  }

  /** Unsigned 32-bit subtraction. */
  function U32Minus(a: nat, b: nat): nat {
    (a - b) % 0x1_0000_0000
  }

  // ---------- the pieces steps are made of ----------

  function Tick(s: State, now: nat): State {
    s.(clock := now, steady := s.steady && s.clock <= now)
  }

  function SetHand(s: State, w: nat, h: Hand): State
    requires w < |s.hands|
  {
    s.(hands := s.hands[w := h])
  }

  function SetLife(s: State, id: string, l: Life): State {
    s.(lives := s.lives[id := l])
  }

  function LifeOf(s: State, id: string): Life {
    if id in s.lives then s.lives[id] else Life(Order("", "", id, "", "", "", "", []), CREATE, [], [], [], true, true)
  }

  function Pop(s: State, k: Kind): State
    requires QueueOf(s, k) != []
  {
    match k
    case Charge => s.(underway := s.underway[..|s.underway| - 1])
    case Query => s.(query := s.query[..|s.query| - 1], taken := s.taken + [s.query[|s.query| - 1]])
    case Notify => s.(notify := s.notify[..|s.notify| - 1])
  }

  function Push(s: State, q: Queue, t: Ticket): State {
    match q
    case Underway => s.(underway := [t] + s.underway)
    case QueryQueue => s.(query := [t] + s.query, put := s.put + [t])
    case NotifyQueue => s.(notify := [t] + s.notify)
  }

  function Finish(s: State, w: nat): State
    requires w < |s.hands| && !s.hands[w].Idle()
  {
    s.(hands := s.hands[w := Top(s.hands[w].Worker())], finished := s.finished + [s.hands[w].Id()])
  }

  function Lose(s: State, w: nat): State
    requires w < |s.hands| && !s.hands[w].Idle()
  {
    s.(hands := s.hands[w := Top(s.hands[w].Worker())], lost := s.lost + [s.hands[w].Id()])
  }

  // ---------- the steps ----------

  function Step(s: State, e: Event): State
    requires Enabled(s, e)
  {
    match e
    case Create(o, now) => CreateStep(s, o, now)
    case Stop => s.(stopped := true)
    case Loop(w) => SetHand(s, w, if s.stopped then Exited(s.hands[w].kind) else Polling(s.hands[w].kind))
    case Dequeue(w, now) => DequeueStep(s, w, now)
    case NothingDequeued(w, alive) => SetHand(s, w, if alive then Top(s.hands[w].kind) else Exited(s.hands[w].kind))
    case Try(w, answer) => TryStep(s, w, answer)
    case Charged(w) => ChargedStep(s, w)
    case ReadClock(w, now) => ReadClockStep(s, w, now)
    case Ask(w, answer) => AskStep(s, w, answer)
    case Connect(w, connected) => ConnectStep(s, w, connected)
    case Update(w, outcome) => UpdateStep(s, w, outcome)
    case Enqueue(w, now) =>
      var h := s.hands[w];
      Tick(SetHand(Push(s, h.target, Serialized(h.info, now)), w, Top(h.kind)), now)
    case ReadRow(w, readable) => ReadRowStep(s, w, readable)
    case Post(w, reply) => PostStep(s, w, reply)
    case PostsDone(w) =>
      var h := s.hands[w];
      SetHand(s, w, Recording(h.info.(notify := FinalCode(h.code))))
  }

  /** CreateTmallOrder, taken as one step: a row with status code 1 and notify 0, and a ticket. */
  function CreateStep(s: State, o: Order, now: nat): State {
    Tick(Push(s, Underway, Ticket(o, CREATE, now, 0)), now)
      .(rows := s.rows[o.coopOrderNo := Row(1, NOTIFY_UNDONE)],
        lives := s.lives[o.coopOrderNo := Life(o, CREATE, [], [], [], true, true)])
  }

  function DequeueStep(s: State, w: nat, now: nat): State
    requires Enabled(s, Dequeue(w, now))
  {
    var k := s.hands[w].kind;
    var q := QueueOf(s, k);
    var i := Deserialized(q[|q| - 1]);
    match k
    case Charge =>
      var id := i.order.coopOrderNo;
      var l := LifeOf(s, id);
      Tick(SetLife(SetHand(Pop(s, k), w, Charging(i.(lastOpTime := now), 0, 1)), id, l.(times := l.times + [now])), now)
    case Query => SetHand(Pop(s, k), w, Checking(i))
    case Notify => SetHand(Pop(s, k), w, Connecting(i))
  }

  function TryStep(s: State, w: nat, answer: Option<int>): State
    requires Enabled(s, Try(w, answer))
  {
    var h := s.hands[w];
    match answer
    case None => SetHand(s, w, h.(tries := h.tries + 1))
    case Some(r) =>
      var l := LifeOf(s, h.Id());
      SetLife(SetHand(s, w, h.(tries := h.tries + 1, ret := r)), h.Id(), l.(calls := l.calls + [r]))
  }

  function ChargedStep(s: State, w: nat): State
    requires Enabled(s, Charged(w))
  {
    var h := s.hands[w];
    if h.ret != 0 then
      SetLife(SetHand(s, w, Updating(Charge, h.info.(status := FAILED, notify := NOTIFY_UNDONE))),
              h.Id(), LifeOf(s, h.Id()).(status := FAILED))
    else SetHand(s, w, Pushing(Charge, h.info, QueryQueue))
  }

  function ReadClockStep(s: State, w: nat, now: nat): State
    requires Enabled(s, ReadClock(w, now))
  {
    var i := s.hands[w].info;
    Tick(SetHand(s, w, if U32Minus(now, i.lastOpTime) < 1 then Pushing(Query, i, QueryQueue)
                       else Asking(i.(lastOpTime := now))), now)
  }

  /** QueryRequest; lastOpTime holds the time just read. */
  function AskStep(s: State, w: nat, answer: int): State
    requires Enabled(s, Ask(w, answer))
  {
    var i := s.hands[w].info;
    var id := i.order.coopOrderNo;
    var l := LifeOf(s, id);
    var h :=
      if answer == 0 then Updating(Query, i.(status := SUCCESS))
      else if U32Minus(i.lastOpTime, i.createTime) >= TIMEOUT_TIME then TimedOut(i.(status := SUCCESS))
      else Pushing(Query, i, QueryQueue);
    var status := if h.Pushing? then l.status else SUCCESS;
    SetLife(SetHand(s, w, h), id, l.(times := l.times + [i.lastOpTime], status := status))
  }

  function ConnectStep(s: State, w: nat, connected: bool): State
    requires Enabled(s, Connect(w, connected))
  {
    var h := s.hands[w];
    if !connected then Lose(s, w)
    else SetHand(s, w, if h.TimedOut? then Updating(Query, h.info) else Reading(h.info))
  }

  function UpdateStep(s: State, w: nat, outcome: DbOutcome): State
    requires Enabled(s, Update(w, outcome))
  {
    var h := s.hands[w];
    var l := LifeOf(s, h.Id());
    var done := if h.Updating? then l.(synced := outcome.Committed?) else l.(noted := outcome.Committed?);
    var u := SetLife(s, h.Id(), done).(rows := RowsAfter(s.rows, h.info, outcome));
    if h.Updating? then SetHand(u, w, Pushing(h.kind, h.info, NotifyQueue)) else Finish(u, w)
  }

  function ReadRowStep(s: State, w: nat, readable: bool): State
    requires Enabled(s, ReadRow(w, readable))
  {
    var h := s.hands[w];
    var known := if readable && h.Id() in s.rows then s.rows[h.Id()].notify else 0;
    if h.info.order.userid != "tmall" || known != 0 then Finish(s, w)
    else SetHand(s, w, Posting(h.info, MAX_POSTS, 0))
  }

  function PostStep(s: State, w: nat, reply: Reply): State
    requires Enabled(s, Post(w, reply))
  {
    var h := s.hands[w];
    if MissingField(h.info.order) || !Settled(h.info.status) then Finish(s, w)
    else
      var l := LifeOf(s, h.Id());
      SetLife(SetHand(s, w, h.(left := h.left - 1, code := Answer(reply))),
              h.Id(), l.(posts := l.posts + [reply]))
  }

  // ---------- runs ----------

  predicate Legal(s: State, es: seq<Event>)
    decreases es
  {
    es == [] || (Enabled(s, es[0]) && Legal(Step(s, es[0]), es[1..]))
  }

  function After(s: State, es: seq<Event>): State
    requires Legal(s, es)
    decreases es
  {
    if es == [] then s else After(Step(s, es[0]), es[1..])
  }

  /** One worker of each given kind, nothing else. */
  function Start(kinds: seq<Kind>): State {
    var hands := seq(|kinds|, i requires 0 <= i < |kinds| => Top(kinds[i]));
    State([], [], [], hands, map[], map[], [], [], false, 0, true, [], [])
  }

  lemma {:induction false} RunSum(s: State, x: seq<Event>, y: seq<Event>)
    ensures Legal(s, x + y) <==> Legal(s, x) && Legal(After(s, x), y)
    ensures Legal(s, x + y) ==> After(s, x + y) == After(After(s, x), y)
    decreases x
  {
    if x == [] {
      assert x + y == y;
    } else {
      assert (x + y)[1..] == x[1..] + y;
      if Enabled(s, x[0]) {
        RunSum(Step(s, x[0]), x[1..], y);
      }
    }
  }
}
