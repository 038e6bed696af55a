/** src/RedisClient.cpp: the three lists, pushed on the left and popped from the right. */
module Redis {
  import opened CText
  import opened Orders
  import opened Pipeline

  class RedisClient {
    var underway: seq<Ticket>
    var query: seq<Ticket>
    var notify: seq<Ticket>

    constructor ()
      ensures underway == query == notify == []
    {
      underway, query, notify := [], [], [];
    }

    function List(k: Kind): seq<Ticket>
      reads this
    {
      match k case Charge => underway case Query => query case Notify => notify
    }

    /** LPUSH */
    method Enqueue(q: Queue, t: Ticket)
      modifies this
      ensures underway == if q == Underway then [t] + old(underway) else old(underway)
      ensures query == if q == QueryQueue then [t] + old(query) else old(query)
      ensures notify == if q == NotifyQueue then [t] + old(notify) else old(notify)
    {
      match q
      case Underway => underway := [t] + underway;
      case QueryQueue => query := [t] + query;
      case NotifyQueue => notify := [t] + notify;
    }

    /** RPOP, which fails on an empty list and without an answer from the server. */
    method Dequeue(k: Kind, answered: bool) returns (got: Option<Ticket>)
      modifies this
      ensures got == if answered && old(List(k)) != [] then Some(old(List(k))[|old(List(k))| - 1]) else None
      ensures forall j :: List(j) == if j == k && got.Some? then old(List(j))[..|old(List(j))| - 1] else old(List(j))
    {
      got := None;
      if !answered {
        return;
      }
      match k {
        case Charge =>
          if underway != [] {
            got, underway := Some(underway[|underway| - 1]), underway[..|underway| - 1];
          }
        case Query =>
          if query != [] {
            got, query := Some(query[|query| - 1]), query[..|query| - 1];
          }
        case Notify =>
          if notify != [] {
            got, notify := Some(notify[|notify| - 1]), notify[..|notify| - 1];
          }
      }
    }
  }
}

/**
  src/OrderHandler.cpp: one turn of each worker's loop, acting on the redis lists and the order table
  while other workers act in between. Each turn is shown to be a run of the step system, so that what
  holds of every run of it holds of the workers.
 */
module OrderHandler {
  import opened CText
  import opened Signature
  import opened Orders
  import opened Callback
  import opened Pipeline
  import opened PipelineInvariant
  import opened PipelineSteps
  import opened PipelineKeeps
  import opened PipelineProgress
  import opened PipelineTheorems
  import opened Redis
  import Channels

  // What the outside does in one turn: the server's answers, the clock, and the upstream and database replies.
  datatype Outside = Outside(
    answered: bool, pinged: bool, reconnected: bool,
    now: nat, later: nat,
    channel: Channels.Network, queryAnswer: int, replies: seq<Reply>,
    connected: bool, readable: bool, outcome: DbOutcome)

  /** The buffers of TmallNotify suffice for the order. */
  predicate Postable(o: Order, privateKey: string) {
    BuffersSuffice(o, SUCCESS, privateKey) && BuffersSuffice(o, FAILED, privateKey)
  }

  ghost predicate AllPostable(s: State, privateKey: string) {
    forall id :: id in s.lives ==> Postable(s.lives[id].order, privateKey)
  }

  ghost predicate Ran(kinds: seq<Kind>, trace: seq<Event>, s: State) {
    Legal(Start(kinds), trace) && s == After(Start(kinds), trace)
  }

  lemma RanHolds(kinds: seq<Kind>, trace: seq<Event>, s: State)
    requires Ran(kinds, trace, s)
    ensures Inv(s)
  {
    hide Inv;
    ReachedHolds(kinds, trace);
  }

  lemma RanOneMore(kinds: seq<Kind>, trace: seq<Event>, s: State, e: Event)
    requires Ran(kinds, trace, s) && Enabled(s, e)
    ensures Ran(kinds, trace + [e], Step(s, e))
  {
    hide Start, Enabled, Step;
    RunSum(Start(kinds), trace, [e]);
  }

  lemma PostableStays(s: State, e: Event, privateKey: string)
    requires Inv(s) && AllPostable(s, privateKey) && Enabled(s, e) && !e.Create?
    ensures AllPostable(Step(s, e), privateKey)
  {
    hide Inv, Step, Postable, WorkedOn;
    StepMoves(s, e);
    forall id | id in Step(s, e).lives ensures Postable(Step(s, e).lives[id].order, privateKey) {
      assert id in s.lives;
    }
  }

  /** What a step leaves as it is, when it only moves the order in hand w along. */
  predicate SameShared(s: State, t: State) {
    && t.underway == s.underway && t.query == s.query && t.notify == s.notify && t.rows == s.rows
    && t.stopped == s.stopped && |t.hands| == |s.hands|
  }

  /** Since the first n events this event has happened. */
  ghost predicate Happened(n: nat, trace: seq<Event>, e: Event) {
    exists i :: n <= i < |trace| && trace[i] == e
  }

  lemma HappenedStays(n: nat, trace: seq<Event>, e: Event, m: nat, longer: seq<Event>)
    requires Happened(n, trace, e) && trace <= longer && m <= n
    ensures Happened(m, longer, e)
  {
    var i :| n <= i < |trace| && trace[i] == e;
    assert longer[i] == e;
  }

  lemma HappensNow(n: nat, trace: seq<Event>, e: Event)
    requires n <= |trace|
    ensures Happened(n, trace + [e], e)
  {
    assert (trace + [e])[|trace|] == e;
  }

  lemma LateIs(now: nat, since: nat)
    ensures U32Minus(now, since) >= TIMEOUT_TIME <==> (now - since) % 0x1_0000_0000 >= 1800
  {
  }

  /** What a worker holds that has just taken an order. */
  function Taken(k: Kind, t: Ticket, now: nat): Hand {
    match k
    case Charge => Charging(Deserialized(t).(lastOpTime := now), 0, 1)
    case Query => Checking(Deserialized(t))
    case Notify => Connecting(Deserialized(t))
  }

  predicate DequeueTook(s: State, k: Kind, w: nat, now: nat, t: State)
    requires QueueOf(s, k) != [] && w < |s.hands|
  {
    var q := QueueOf(s, k);
    && t.hands == s.hands[w := Taken(k, q[|q| - 1], now)] && t.rows == s.rows && t.stopped == s.stopped
    && forall j :: QueueOf(t, j) == if j == k then q[..|q| - 1] else QueueOf(s, j)
  }

  lemma DequeueTakes(s: State, w: nat, now: nat)
    requires Enabled(s, Dequeue(w, now))
    ensures DequeueTook(s, s.hands[w].kind, w, now, Step(s, Dequeue(w, now)))
  {
    hide LifeOf, Deserialized;
    var k := s.hands[w].kind;
    assert Step(s, Dequeue(w, now)) == DequeueStep(s, w, now);
    hide Step, Enabled;
    match k {
      case Charge => assert DequeueTook(s, Charge, w, now, DequeueStep(s, w, now));
      case Query => assert DequeueTook(s, Query, w, now, DequeueStep(s, w, now));
      case Notify => assert DequeueTook(s, Notify, w, now, DequeueStep(s, w, now));
    }
  }

  class OrderHandler {
    const redis: RedisClient
    const table: OrderTable
    const privateKey: string
    const md5: Digest
    const slsName: string
    const llwwName: string
    var stop: bool                       // handler_status == Stop

    ghost const kinds: seq<Kind>
    ghost var trace: seq<Event>
    ghost var machine: State

    /** The lists and rows are those of the step system. */
    ghost predicate Synced()
      reads this, redis, table
    {
      && (forall k :: redis.List(k) == QueueOf(machine, k))
      && table.rows == machine.rows && stop == machine.stopped
    }

    /** The step system has come to its state by a run from the start. */
    ghost predicate Valid()
      reads this, redis, table
    {
      Synced() && Ran(kinds, trace, machine) && AllPostable(machine, privateKey)
    }

    constructor (workers: seq<Kind>, privateKey: string, md5: Digest, slsName: string, llwwName: string)
      ensures Valid() && machine == Start(workers) && fresh(redis) && fresh(table)
      ensures this.privateKey == privateKey && this.md5 == md5
    {
      redis := new RedisClient();
      table := new OrderTable();
      this.privateKey, this.md5, this.slsName, this.llwwName := privateKey, md5, slsName, llwwName;
      stop := false;
      this.kinds, trace, machine := workers, [], Start(workers);
    }

    ghost method Take(e: Event)
      requires Ran(kinds, trace, machine) && AllPostable(machine, privateKey) && Enabled(machine, e) && !e.Create?
      modifies this`trace, this`machine
      ensures Ran(kinds, trace, machine) && AllPostable(machine, privateKey)
      ensures trace == old(trace) + [e] && machine == Step(old(machine), e)
    {
      hide Ran, AllPostable, Enabled, Step, Inv;
      RanHolds(kinds, trace, machine);
      RanOneMore(kinds, trace, machine, e);
      PostableStays(machine, e, privateKey);
      trace, machine := trace + [e], Step(machine, e);
    }

    /**
      Whatever everybody but worker w does meanwhile: all a worker may rely on is the contract, which
      allows any legal steps that leave hand w alone.
     */
    method Others(w: nat)
      requires Valid() && w < |machine.hands|
      modifies this, redis, table
      ensures Valid() && |machine.hands| == |old(machine).hands| && machine.hands[w] == old(machine).hands[w]
      ensures old(trace) <= trace
    {
    }

    /** The head of each loop: the test of Stop, and the dequeue. */
    method Next(w: nat, k: Kind, failTime: nat, out: Outside) returns (got: Option<Ticket>, running: bool, fails: nat)
      requires Valid() && w < |machine.hands| && machine.hands[w] == Top(k)
      modifies this, redis, table
      ensures Valid() && |machine.hands| == |old(machine).hands|
      ensures old(trace) <= trace && Happened(|old(trace)|, trace, Loop(w))
      ensures got.None? ==> machine.hands[w] == if running then Top(k) else Exited(k)
      ensures got.Some? ==> running && machine.hands[w] == Taken(k, got.value, out.now)
    {
      hide Ran, AllPostable, Happened, Taken;
      got, fails := None, failTime;
      Others(w);
      running := !stop;
      HappensNow(|old(trace)|, trace, Loop(w));
      Take(Loop(w));
      if running {
        ghost var before := trace;
        Others(w);
        got, running, fails := Polled(w, k, failTime, out);
        HappenedStays(|old(trace)|, before, Loop(w), |old(trace)|, trace);
      }
    }

    method Polled(w: nat, k: Kind, failTime: nat, out: Outside) returns (got: Option<Ticket>, running: bool, fails: nat)
      requires Valid() && w < |machine.hands| && machine.hands[w] == Polling(k)
      modifies this, redis, table
      ensures Valid() && |machine.hands| == |old(machine).hands| && old(trace) <= trace
      ensures got.None? ==> machine.hands[w] == if running then Top(k) else Exited(k)
      ensures got.Some? ==> running && machine.hands[w] == Taken(k, got.value, out.now)
      ensures got.Some? <==> out.answered && QueueOf(old(machine), k) != []
      ensures running <==> got.Some? || failTime < 5 || out.pinged || out.reconnected
      ensures fails == if got.Some? then failTime else if failTime >= 5 && out.pinged then 0 else failTime + 1
    {
      hide Ran, AllPostable, Taken, Step;
      running, fails := true, failTime;
      got := redis.Dequeue(k, out.answered);
      if got.None? {
        fails := fails + 1;
        if fails > 5 {
          if out.pinged {
            fails := 0;
          } else if !out.reconnected {
            running := false;
          }
        }
        TakeNothing(w, k, running);
      } else {
        TakeDequeue(w, k, out.now);
      }
    }

    ghost method TakeDequeue(w: nat, k: Kind, now: nat)
      requires Ran(kinds, trace, machine) && AllPostable(machine, privateKey)
      requires w < |machine.hands| && machine.hands[w] == Polling(k) && QueueOf(machine, k) != []
      modifies this`trace, this`machine
      ensures Ran(kinds, trace, machine) && AllPostable(machine, privateKey) && old(trace) <= trace
      ensures DequeueTook(old(machine), k, w, now, machine)
    {
      hide Ran, AllPostable, Taken, Step, QueueOf, DequeueTook;
      DequeueTakes(machine, w, now);
      Take(Dequeue(w, now));
    }

    ghost method TakeNothing(w: nat, k: Kind, alive: bool)
      requires Ran(kinds, trace, machine) && AllPostable(machine, privateKey)
      requires w < |machine.hands| && machine.hands[w] == Polling(k)
      modifies this`trace, this`machine
      ensures Ran(kinds, trace, machine) && AllPostable(machine, privateKey) && old(trace) <= trace
      ensures SameShared(old(machine), machine) && machine.hands[w] == if alive then Top(k) else Exited(k)
    {
      hide Ran, AllPostable;
      Take(NothingDequeued(w, alive));
    }

    /** Serialise and enqueue. */
    method Requeue(w: nat, k: Kind, info: TopupInfo, q: Queue, later: nat)
      requires Valid() && w < |machine.hands| && machine.hands[w] == Pushing(k, info.View(), q)
      modifies this, redis, table
      ensures Valid() && |machine.hands| == |old(machine).hands|
      ensures machine.hands[w] == Top(k) && old(trace) <= trace
      ensures Happened(|old(trace)|, trace, Enqueue(w, later))
    {
      hide Ran, AllPostable, Serialized, Deserialized, Happened;
      Others(w);
      var data := info.Serialize(later);
      assert redis.List(Charge) == machine.underway && redis.List(Query) == machine.query;
      assert redis.List(Notify) == machine.notify;
      redis.Enqueue(q, data);
      HappensNow(|old(trace)|, trace, Enqueue(w, later));
      Take(Enqueue(w, later));
    }

    /** Bring the row up to date, and put the order in the notify list. */
    method Settle(w: nat, k: Kind, info: TopupInfo, out: Outside)
      requires Valid() && w < |machine.hands| && machine.hands[w] == Updating(k, info.View())
      modifies this, redis, table
      ensures Valid() && |machine.hands| == |old(machine).hands|
      ensures machine.hands[w] == Top(k) && old(trace) <= trace
      ensures Happened(|old(trace)|, trace, Update(w, out.outcome))
    {
      hide Ran, AllPostable, RowsAfter, LifeOf, Happened;
      Others(w);
      var ret := table.UpdateOrderStatus(info, out.outcome);
      HappensNow(|old(trace)|, trace, Update(w, out.outcome));
      Take(Update(w, out.outcome));
      ghost var before := trace;
      Requeue(w, k, info, NotifyQueue, out.later);
      HappenedStays(|old(trace)|, before, Update(w, out.outcome), |old(trace)|, trace);
    }

    // ---------- charge ----------

    method ChargeTurn(w: nat, failTime: nat, out: Outside) returns (running: bool, fails: nat)
      requires Valid() && w < |machine.hands| && machine.hands[w] == Top(Charge)
      modifies this, redis, table
      ensures Valid() && |machine.hands| == |old(machine).hands|
      ensures machine.hands[w] == (if running then Top(Charge) else Exited(Charge))
      ensures old(trace) <= trace && Happened(|old(trace)|, trace, Loop(w))
    {
      hide Ran, AllPostable, Happened, Step, Synced;
      var got;
      got, running, fails := Next(w, Charge, failTime, out);
      if got.Some? {
        ghost var before := trace;
        var info := new TopupInfo.Deserialize(got.value);
        info.lastOpTime := out.now;
        ChargeOrder(w, info, out);
        HappenedStays(|old(trace)|, before, Loop(w), |old(trace)|, trace);
      }
    }

    /** ChargeRequest, and what follows from its result. */
    method ChargeOrder(w: nat, info: TopupInfo, out: Outside)
      requires Valid() && w < |machine.hands| && machine.hands[w] == Charging(info.View(), 0, 1)
      modifies this, redis, table, info
      ensures Valid() && |machine.hands| == |old(machine).hands|
      ensures machine.hands[w] == Top(Charge) && old(trace) <= trace
    {
      hide Ran, AllPostable, MayTry, Step;
      var ret, calls, posts := RequestCharge(info, out.channel);
      TakeTries(w, info.View(), ret, calls, posts, out.channel);
      Others(w);
      TakeCharged(w, info.View(), ret);
      SettleOrAsk(w, info, ret, out);
    }

    method RequestCharge(info: TopupInfo, net: Channels.Network) returns (ret: int, calls: seq<int>, posts: nat)
      ensures Channels.Attempt(ret, calls, posts) ==
              Channels.Request(info.order.channels, info.order.interfaceName, slsName, llwwName, net)
    {
      ret, calls, posts :=
        Channels.ChargeRequest(info.order.channels, info.order.interfaceName, slsName, llwwName, net);
    }

    ghost method TakeCharged(w: nat, i: Info, ret: int)
      requires Ran(kinds, trace, machine) && AllPostable(machine, privateKey)
      requires w < |machine.hands| && machine.hands[w].Charging? && !MayTry(machine.hands[w])
      requires machine.hands[w].info == i && machine.hands[w].ret == ret
      modifies this`trace, this`machine
      ensures Ran(kinds, trace, machine) && AllPostable(machine, privateKey) && old(trace) <= trace
      ensures SameShared(old(machine), machine)
      ensures machine.hands[w] == if ret == 0 then Pushing(Charge, i, QueryQueue)
                                  else Updating(Charge, i.(status := FAILED, notify := NOTIFY_UNDONE))
    {
      hide Ran, AllPostable, LifeOf, MayTry;
      Take(Charged(w));
    }

    /** A failed order is settled at once, another one goes to the query list. */
    method SettleOrAsk(w: nat, info: TopupInfo, ret: int, out: Outside)
      requires Valid() && w < |machine.hands|
      requires ret != 0 ==>
                 machine.hands[w] == Updating(Charge, info.View().(status := FAILED, notify := NOTIFY_UNDONE))
      requires ret == 0 ==> machine.hands[w] == Pushing(Charge, info.View(), QueryQueue)
      modifies this, redis, table, info
      ensures Valid() && |machine.hands| == |old(machine).hands|
      ensures machine.hands[w] == Top(Charge) && old(trace) <= trace
    {
      hide Ran, AllPostable, Step;
      if ret != 0 {
        info.status := FAILED;
        info.notify := NOTIFY_UNDONE;
        Settle(w, Charge, info, out);
      } else {
        Requeue(w, Charge, info, QueryQueue, out.later);
      }
    }

    /** The Charge calls of one request, with others in between: they touch nothing that is shared. */
    method TakeTries(w: nat, i: Info, ret: int, calls: seq<int>, ghost posts: nat, ghost net: Channels.Network)
      requires Valid() && w < |machine.hands| && machine.hands[w] == Charging(i, 0, 1)
      requires Channels.Attempt(ret, calls, posts) ==
               Channels.Request(i.order.channels, i.order.interfaceName, slsName, llwwName, net)
      modifies this, redis, table
      ensures Valid() && |machine.hands| == |old(machine).hands| && old(trace) <= trace
      ensures machine.hands[w].Charging? && machine.hands[w].info == i && machine.hands[w].ret == ret
      ensures !MayTry(machine.hands[w])
    {
      hide Ran, AllPostable, LifeOf;
      Channels.RequestStops(i.order.channels, i.order.interfaceName, slsName, llwwName, net);
      hide Channels.Request;
      var tries := if i.order.channels == [] then 0 else if calls == [] then Channels.CHARGE_TIMES else |calls|;
      for k := 0 to tries
        invariant Valid() && |machine.hands| == |old(machine).hands| && old(trace) <= trace
        invariant machine.hands[w] == Charging(i, k, if k == 0 || calls == [] then 1 else calls[k - 1])
      {
        Others(w);
        Take(Try(w, if calls == [] then None else Some(calls[k])));
      }
    }

    // ---------- query ----------

    method QueryTurn(w: nat, failTime: nat, out: Outside) returns (running: bool, fails: nat)
      requires Valid() && w < |machine.hands| && machine.hands[w] == Top(Query)
      modifies this, redis, table
      ensures Valid() && |machine.hands| == |old(machine).hands|
      ensures machine.hands[w] == (if running then Top(Query) else Exited(Query))
      ensures old(trace) <= trace && Happened(|old(trace)|, trace, Loop(w))
    {
      hide Ran, AllPostable, Happened, Step, Synced;
      var got;
      got, running, fails := Next(w, Query, failTime, out);
      if got.Some? {
        ghost var before := trace;
        var info := new TopupInfo.Deserialize(got.value);
        Check(w, info, out);
        HappenedStays(|old(trace)|, before, Loop(w), |old(trace)|, trace);
      }
    }

    /** Not more than once a second. */
    method Check(w: nat, info: TopupInfo, out: Outside)
      requires Valid() && w < |machine.hands| && machine.hands[w] == Checking(info.View())
      modifies this, redis, table, info
      ensures Valid() && |machine.hands| == |old(machine).hands|
      ensures machine.hands[w] == Top(Query) && old(trace) <= trace
    {
      hide Ran, AllPostable, U32Minus, Step;
      Others(w);
      TakeReadClock(w, info.View(), out.now);
      if U32Minus(out.now, info.lastOpTime) < 1 {
        Requeue(w, Query, info, QueryQueue, out.later);
      } else {
        info.lastOpTime := out.now;
        Asked(w, info, out);
      }
    }

    /**
      QueryRequest, and what follows from its answer: the order is settled at once if the answer is 0, or
      if 1800 seconds have passed since it was serialised and there is a connection; else it is queried again.
     */
    method Asked(w: nat, info: TopupInfo, out: Outside)
      requires Valid() && w < |machine.hands| && machine.hands[w] == Asking(info.View())
      modifies this, redis, table, info
      ensures Valid() && |machine.hands| == |old(machine).hands|
      ensures machine.hands[w] == Top(Query) && old(trace) <= trace
      ensures Happened(|old(trace)|, trace, Ask(w, out.queryAnswer))
      ensures var late := (old(info.lastOpTime) - old(info.createTime)) % 0x1_0000_0000 >= 1800;
              && (info.status == if out.queryAnswer == 0 || late then SUCCESS else old(info.status))
              && (out.queryAnswer == 0 ==> Happened(|old(trace)|, trace, Update(w, out.outcome)))
              && (out.queryAnswer != 0 && late ==> Happened(|old(trace)|, trace, Connect(w, out.connected)))
              && (out.queryAnswer != 0 && !late ==> Happened(|old(trace)|, trace, Enqueue(w, out.later)))
    {
      hide Ran, AllPostable, U32Minus, Step, Happened;
      Others(w);
      HappensNow(|old(trace)|, trace, Ask(w, out.queryAnswer));
      TakeAnswer(w, info.View(), out.queryAnswer);
      ghost var before := trace;
      LateIs(info.lastOpTime, info.createTime);
      if out.queryAnswer == 0 {
        info.status := SUCCESS;
        Settle(w, Query, info, out);
        HappenedStays(|before|, trace, Update(w, out.outcome), |old(trace)|, trace);
      } else if U32Minus(info.lastOpTime, info.createTime) >= TIMEOUT_TIME {
        info.status := SUCCESS;
        TimeOut(w, info, out);
        HappenedStays(|before|, trace, Connect(w, out.connected), |old(trace)|, trace);
      } else {
        Requeue(w, Query, info, QueryQueue, out.later);
        HappenedStays(|before|, trace, Enqueue(w, out.later), |old(trace)|, trace);
      }
      HappenedStays(|old(trace)|, before, Ask(w, out.queryAnswer), |old(trace)|, trace);
    }

    ghost method TakeAnswer(w: nat, i: Info, answer: int)
      requires Ran(kinds, trace, machine) && AllPostable(machine, privateKey)
      requires w < |machine.hands| && machine.hands[w] == Asking(i)
      modifies this`trace, this`machine
      ensures Ran(kinds, trace, machine) && AllPostable(machine, privateKey) && trace == old(trace) + [Ask(w, answer)]
      ensures SameShared(old(machine), machine)
      ensures machine.hands[w] == if answer == 0 then Updating(Query, i.(status := SUCCESS))
                                  else if U32Minus(i.lastOpTime, i.createTime) >= TIMEOUT_TIME
                                  then Hand.TimedOut(i.(status := SUCCESS))
                                  else Pushing(Query, i, QueryQueue)
    {
      hide Ran, AllPostable, U32Minus, LifeOf;
      Take(Ask(w, answer));
    }

    ghost method TakeReadClock(w: nat, i: Info, now: nat)
      requires Ran(kinds, trace, machine) && AllPostable(machine, privateKey)
      requires w < |machine.hands| && machine.hands[w] == Checking(i)
      modifies this`trace, this`machine
      ensures Ran(kinds, trace, machine) && AllPostable(machine, privateKey) && old(trace) <= trace
      ensures SameShared(old(machine), machine)
      ensures machine.hands[w] == if U32Minus(now, i.lastOpTime) < 1 then Pushing(Query, i, QueryQueue)
                                  else Asking(i.(lastOpTime := now))
    {
      hide Ran, AllPostable, U32Minus;
      Take(ReadClock(w, now));
    }

    /** An order asked about for too long is settled as well, if there is a connection. */
    method TimeOut(w: nat, info: TopupInfo, out: Outside)
      requires Valid() && w < |machine.hands| && machine.hands[w] == Hand.TimedOut(info.View())
      modifies this, redis, table
      ensures Valid() && |machine.hands| == |old(machine).hands|
      ensures machine.hands[w] == Top(Query) && old(trace) <= trace
      ensures Happened(|old(trace)|, trace, Connect(w, out.connected))
      ensures out.connected ==> Happened(|old(trace)|, trace, Update(w, out.outcome))
    {
      hide Ran, AllPostable, Happened;
      Others(w);
      HappensNow(|old(trace)|, trace, Connect(w, out.connected));
      Take(Connect(w, out.connected));
      ghost var before := trace;
      if out.connected {
        Settle(w, Query, info, out);
        HappenedStays(|before|, trace, Update(w, out.outcome), |old(trace)|, trace);
      }
      HappenedStays(|old(trace)|, before, Connect(w, out.connected), |old(trace)|, trace);
    }

    // ---------- notify ----------

    method NotifyTurn(w: nat, failTime: nat, out: Outside) returns (running: bool, fails: nat)
      requires Valid() && w < |machine.hands| && machine.hands[w] == Top(Notify)
      modifies this, redis, table
      ensures Valid() && |machine.hands| == |old(machine).hands|
      ensures machine.hands[w] == (if running then Top(Notify) else Exited(Notify))
      ensures old(trace) <= trace && Happened(|old(trace)|, trace, Loop(w))
    {
      hide Ran, AllPostable, Happened, Step, Synced;
      var got;
      got, running, fails := Next(w, Notify, failTime, out);
      if got.Some? {
        ghost var before := trace;
        var info := new TopupInfo.Deserialize(got.value);
        TellOrder(w, info, out);
        HappenedStays(|old(trace)|, before, Loop(w), |old(trace)|, trace);
      }
    }

    method TellOrder(w: nat, info: TopupInfo, out: Outside)
      requires Valid() && w < |machine.hands| && machine.hands[w] == Connecting(info.View())
      modifies this, redis, table, info
      ensures Valid() && |machine.hands| == |old(machine).hands|
      ensures machine.hands[w] == Top(Notify) && old(trace) <= trace
    {
      hide Ran, AllPostable;
      Others(w);
      Take(Connect(w, out.connected));
      if out.connected {
        Others(w);
        if info.order.userid == "tmall" {
          Tell(w, info, out);
        } else {
          PassOver(w, info.View(), out);
        }
      }
    }

    /** The callback of other customers is left out. */
    ghost method PassOver(w: nat, i: Info, out: Outside)
      requires Ran(kinds, trace, machine) && AllPostable(machine, privateKey)
      requires w < |machine.hands| && machine.hands[w] == Reading(i) && i.order.userid != "tmall"
      modifies this`trace, this`machine
      ensures Ran(kinds, trace, machine) && AllPostable(machine, privateKey) && old(trace) <= trace
      ensures SameShared(old(machine), machine) && machine.hands[w] == Top(Notify)
    {
      hide Ran, AllPostable;
      Take(ReadRow(w, out.readable));
    }

    /** The parts of TopupImpl::Notify, with others in between. */
    method Tell(w: nat, info: TopupInfo, out: Outside)
      requires Valid() && w < |machine.hands| && machine.hands[w] == Reading(info.View())
      requires info.order.userid == "tmall"
      modifies this, redis, table, info
      ensures Valid() && |machine.hands| == |old(machine).hands|
      ensures machine.hands[w] == Top(Notify) && old(trace) <= trace
    {
      hide Ran, AllPostable, BuffersSuffice, MissingField, PostOf, Step;
      HeldIsPostable(kinds, trace, machine, w, privateKey);
      var notify := table.GetNotifyStatus(info.order.coopOrderNo, out.readable);
      TakeReading(w, info.View(), out.readable);
      if notify == 0 {
        var topup := new TopupImpl(info, table, privateKey, md5);
        PostAndRecord(w, topup, out);
      }
    }

    ghost method TakeReading(w: nat, i: Info, readable: bool)
      requires Ran(kinds, trace, machine) && AllPostable(machine, privateKey)
      requires w < |machine.hands| && machine.hands[w] == Reading(i) && i.order.userid == "tmall"
      modifies this`trace, this`machine
      ensures Ran(kinds, trace, machine) && AllPostable(machine, privateKey) && old(trace) <= trace
      ensures SameShared(old(machine), machine)
      ensures var id, rows := i.order.coopOrderNo, old(machine).rows;
              machine.hands[w] == if readable && id in rows && rows[id].notify != 0 then Top(Notify)
                                  else Posting(i, MAX_POSTS, 0)
    {
      hide Ran, AllPostable;
      Take(ReadRow(w, readable));
    }

    /** The parts of TmallNotify. */
    method PostAndRecord(w: nat, topup: TopupImpl, out: Outside)
      requires topup.conn == table && topup.privateKey == privateKey
      requires Valid() && w < |machine.hands| && machine.hands[w] == Posting(topup.info.View(), MAX_POSTS, 0)
      requires BuffersSuffice(topup.info.order, topup.info.status, privateKey)
      modifies this, redis, table, topup.info
      ensures Valid() && |machine.hands| == |old(machine).hands|
      ensures machine.hands[w] == Top(Notify) && old(trace) <= trace
    {
      hide Ran, AllPostable, BuffersSuffice, MissingField, Settled, PostOf, PostRounds, Answer;
      hide FinalCode, LifeOf, RowsAfter;
      var left, code, notifyStatus, posts := topup.PostUntilAnswered(out.replies);
      hide Step;
      if left {
        TakeRefusal(w, topup.info.View(), ReplyAt(out.replies, 0));
      } else {
        TakePosts(w, topup.info.View(), out.replies, |posts|, notifyStatus);
        RecordAnswer(w, topup, notifyStatus, out.outcome);
      }
    }

    /** An order without its fields is given up before anything is posted. */
    ghost method TakeRefusal(w: nat, i: Info, reply: Reply)
      requires Ran(kinds, trace, machine) && AllPostable(machine, privateKey)
      requires w < |machine.hands| && machine.hands[w] == Posting(i, MAX_POSTS, 0)
      requires MissingField(i.order) || !Settled(i.status)
      modifies this`trace, this`machine
      ensures Ran(kinds, trace, machine) && AllPostable(machine, privateKey) && old(trace) <= trace
      ensures SameShared(old(machine), machine) && machine.hands[w] == Top(Notify)
    {
      hide Ran, AllPostable, MissingField, Settled, Answer, LifeOf;
      Take(Post(w, reply));
    }

    method RecordAnswer(w: nat, topup: TopupImpl, notifyStatus: int, outcome: DbOutcome)
      requires topup.conn == table
      requires Valid() && w < |machine.hands| && machine.hands[w].Posting? && !MayPost(machine.hands[w])
      requires machine.hands[w].info == topup.info.View() && machine.hands[w].code == notifyStatus
      modifies this, redis, table, topup.info
      ensures Valid() && |machine.hands| == |old(machine).hands|
      ensures machine.hands[w] == Top(Notify) && old(trace) <= trace
    {
      hide Ran, AllPostable, FinalCode, LifeOf, RowsAfter, MayPost;
      Others(w);
      Take(PostsDone(w));
      WriteAnswer(w, topup, notifyStatus, outcome);
    }

    method WriteAnswer(w: nat, topup: TopupImpl, notifyStatus: int, outcome: DbOutcome)
      requires topup.conn == table && Valid() && w < |machine.hands|
      requires machine.hands[w] == Recording(topup.info.View().(notify := FinalCode(notifyStatus)))
      modifies this, redis, table, topup.info
      ensures Valid() && |machine.hands| == |old(machine).hands|
      ensures machine.hands[w] == Top(Notify) && old(trace) <= trace
    {
      hide Ran, AllPostable, FinalCode, LifeOf, RowsAfter;
      Others(w);
      topup.Record(notifyStatus, outcome);
      Take(Update(w, outcome));
    }

    /** The posts of one callback, with others in between: they touch nothing that is shared. */
    method TakePosts(w: nat, i: Info, replies: seq<Reply>, posts: nat, code: int)
      requires Valid() && w < |machine.hands| && machine.hands[w] == Posting(i, MAX_POSTS, 0)
      requires !MissingField(i.order) && Settled(i.status)
      requires Rounds(posts, code) == PostRounds(replies, 0, MAX_POSTS)
      modifies this, redis, table
      ensures Valid() && |machine.hands| == |old(machine).hands| && old(trace) <= trace
      ensures posts <= MAX_POSTS && machine.hands[w] == Posting(i, MAX_POSTS - posts, code)
      ensures !MayPost(machine.hands[w])
    {
      hide Ran, AllPostable, MissingField, LifeOf, Answer, Settled, PostRounds;
      PostRoundsStopAtAnswer(replies, 0, MAX_POSTS);
      for k := 0 to posts
        invariant Valid() && |machine.hands| == |old(machine).hands| && old(trace) <= trace
        invariant machine.hands[w] == Posting(i, MAX_POSTS - k, if k == 0 then 0 else AnswerAt(replies, k - 1))
      {
        Others(w);
        Take(Post(w, ReplyAt(replies, k)));
      }
    }
  }

  lemma HeldIsPostable(kinds: seq<Kind>, trace: seq<Event>, s: State, w: nat, privateKey: string)
    requires Ran(kinds, trace, s) && AllPostable(s, privateKey) && w < |s.hands| && s.hands[w].Reading?
    ensures Settled(s.hands[w].info.status) && BuffersSuffice(s.hands[w].info.order, s.hands[w].info.status, privateKey)
  {
    hide Inv, LifeOk, BuffersSuffice;
    RanHolds(kinds, trace, s);
    HeldFacts(s, w);
    assert Postable(s.lives[s.hands[w].Id()].order, privateKey);
  }

  // ---------- what the theorems say about the real lists and rows ----------

  /** No order is in the redis lists more often than it was created, which is at most once. */
  lemma ListsHoldOrdersOnce(h: OrderHandler, id: string)
    requires h.Valid()
    ensures InQueue(h.redis.underway, id) + InQueue(h.redis.query, id) + InQueue(h.redis.notify, id)
            <= Creations(h.trace, id) <= 1
  {
    hide AllPostable, InQueue, InHands, Among, Legal;
    OrdersAreConserved(h.kinds, h.trace, id);
    assert h.redis.List(Charge) == h.machine.underway && h.redis.List(Query) == h.machine.query
           && h.redis.List(Notify) == h.machine.notify;
  }

  /**
    An order in the notify list of redis is settled. Its row in the table has notify 0, and code 2 if it
    failed and that update was committed, else the 1 it was created with, which also means success.
   */
  lemma NotifyHoldsSettled(h: OrderHandler, i: nat)
    requires h.Valid() && i < |h.redis.notify|
    ensures var t := h.redis.notify[i];
            && t.status in {SUCCESS, FAILED}
            && t.order.coopOrderNo in h.machine.lives && t.order.coopOrderNo in h.table.rows
            && var id := t.order.coopOrderNo;
               h.table.rows[id] == Row(if t.status == FAILED && h.machine.lives[id].synced then 2 else 1, 0)
  {
    hide AllPostable, Legal;
    assert h.redis.List(Notify) == h.machine.notify;
    NotifyListIsSettled(h.kinds, h.trace, i);
  }
}
