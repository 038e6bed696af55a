/**
  src/ChannelSLS.cpp Charge and src/ChannelImpl.cpp ChargeRequest: nested retry loops over an
  arbitrary stream of replies. The LLWW channel is an oracle: only the value each of its Charge
  calls returns is given.
 */
module Channels {

  // NotCalled: the parser never ran; Malformed: no document, or no Response/Result in it.
  datatype ChargeBody = NotCalled | Malformed | Result(code: int, hasErrCode: bool)
  datatype ChargeReply = ChargeReply(performed: bool, body: ChargeBody)

  const SLS_POSTS := 6
  const CHARGE_TIMES := 5

  /** parse_sls_charge_response: what becomes of req_result::status. */
  function ParseCharge(body: ChargeBody, before: int): int {
    match body
    case NotCalled => before
    case Malformed => 2
    case Result(code, hasErrCode) => if code == 1 then 0 else if hasErrCode then 1 else 2
  }

  /** Everything outside: the replies to the SLS posts in order, what the uninitialised status of the
      n-th call holds, and what the n-th call of the LLWW channel returns. */
  datatype Network = Network(sls: seq<ChargeReply>, garbage: seq<int>, llww: seq<int>)

  function SlsReply(net: Network, k: nat): ChargeReply {
    if k < |net.sls| then net.sls[k] else ChargeReply(false, NotCalled)
  }

  function Garbage(net: Network, n: nat): int {
    if n < |net.garbage| then net.garbage[n] else 1
  }

  function Llww(net: Network, n: nat): int {
    if n < |net.llww| then net.llww[n] else 1
  }

  // ---------- ChannelSLS::Charge ----------

  /** The status after n replies from reply `at` on, when it started as `status`. */
  function StatusAfter(net: Network, at: nat, n: nat, status: int): int {
    if n == 0 then status else ParseCharge(SlsReply(net, at + n - 1).body, StatusAfter(net, at, n - 1, status))
  }

  /** The n-th reply of a call is taken for an acceptance. */
  predicate SeenAccepted(net: Network, at: nat, n: nat, status: int) {
    SlsReply(net, at + n).performed && StatusAfter(net, at, n + 1, status) == 0
  }

  datatype Charged = Charged(ret: int, posts: nat)

  /** Posts until a reply is taken for an acceptance, at most `left` more after the first n. */
  function SlsRun(net: Network, at: nat, n: nat, left: nat, status: int): Charged
    decreases left
  {
    if left == 0 then Charged(1, n)
    else if SeenAccepted(net, at, n, status) then Charged(0, n + 1)
    else SlsRun(net, at, n + 1, left - 1, status)
  }

  /** At most six posts; a call succeeds exactly when the last reply, and no other, was taken for an acceptance. */
  lemma {:induction false} SlsRunStops(net: Network, at: nat, n: nat, left: nat, status: int)
    requires forall i :: 0 <= i < n ==> !SeenAccepted(net, at, i, status)
    ensures var r := SlsRun(net, at, n, left, status);
            && n <= r.posts <= n + left && r.ret in {0, 1}
            && (forall i :: 0 <= i < r.posts - 1 ==> !SeenAccepted(net, at, i, status))
            && (r.ret == 0 ==> r.posts > n && SeenAccepted(net, at, r.posts - 1, status))
            && (r.ret == 1 ==>
                  r.posts == n + left && forall i :: 0 <= i < r.posts ==> !SeenAccepted(net, at, i, status))
    decreases left
  {
    if left > 0 && !SeenAccepted(net, at, n, status) {
      SlsRunStops(net, at, n + 1, left - 1, status);
    }
  }

  function SlsCall(net: Network, at: nat, call: nat): Charged {
    SlsRun(net, at, 0, SLS_POSTS, Garbage(net, call))
  }

  // ---------- which replies end a call ----------

  /**
    After the first k replies of a call the status is 0: the last reply with a document had Result 1; or
    none had a document, and the uninitialised status was 0.
   */
  predicate ZeroLeft(net: Network, at: nat, k: nat, call: nat) {
    if forall m :: at <= m < at + k ==> SlsReply(net, m).body == NotCalled
    then Garbage(net, call) == 0
    else exists j :: at <= j < at + k && SlsReply(net, j).body.Result? && SlsReply(net, j).body.code == 1
                     && forall m :: j < m < at + k ==> SlsReply(net, m).body == NotCalled
  }

  /**
    Reply k of a call is taken for an acceptance: it got through, and has Result 1, or has no document
    at all while the status is 0.
   */
  predicate Accepting(net: Network, at: nat, k: nat, call: nat) {
    var r := SlsReply(net, at + k);
    r.performed && ((r.body.Result? && r.body.code == 1) || (r.body == NotCalled && ZeroLeft(net, at, k, call)))
  }

  /** The status is just that. */
  lemma {:induction false} StatusIsZero(net: Network, at: nat, k: nat, call: nat)
    ensures StatusAfter(net, at, k, Garbage(net, call)) == 0 <==> ZeroLeft(net, at, k, call)
  {
    if k > 0 {
      StatusIsZero(net, at, k - 1, call);
      if SlsReply(net, at + k - 1).body == NotCalled {
        QuietReply(net, at, k, call);
      } else {
        LoudReply(net, at, k, call);
      }
    }
  }

  lemma QuietReply(net: Network, at: nat, k: nat, call: nat)
    requires k > 0 && SlsReply(net, at + k - 1).body == NotCalled
    ensures ZeroLeft(net, at, k, call) <==> ZeroLeft(net, at, k - 1, call)
  {
    hide SlsReply, Garbage;
    if forall m :: at <= m < at + k - 1 ==> SlsReply(net, m).body == NotCalled {
      assert forall m :: at <= m < at + k ==> SlsReply(net, m).body == NotCalled;
    } else {
      if ZeroLeft(net, at, k - 1, call) {
        var j :| at <= j < at + k - 1 && SlsReply(net, j).body.Result? && SlsReply(net, j).body.code == 1
                 && forall m :: j < m < at + k - 1 ==> SlsReply(net, m).body == NotCalled;
        assert forall m :: j < m < at + k ==> SlsReply(net, m).body == NotCalled;
      }
      if ZeroLeft(net, at, k, call) {
        var j :| at <= j < at + k && SlsReply(net, j).body.Result? && SlsReply(net, j).body.code == 1
                 && forall m :: j < m < at + k ==> SlsReply(net, m).body == NotCalled;
        assert j < at + k - 1;
      }
    }
  }

  lemma LoudReply(net: Network, at: nat, k: nat, call: nat)
    requires k > 0 && SlsReply(net, at + k - 1).body != NotCalled
    ensures ZeroLeft(net, at, k, call) <==>
            SlsReply(net, at + k - 1).body.Result? && SlsReply(net, at + k - 1).body.code == 1
  {
    hide SlsReply, Garbage;
    var last := at + k - 1;
    assert !(forall m :: at <= m < at + k ==> SlsReply(net, m).body == NotCalled);
    if ZeroLeft(net, at, k, call) {
      var j :| at <= j < at + k && SlsReply(net, j).body.Result? && SlsReply(net, j).body.code == 1
               && forall m :: j < m < at + k ==> SlsReply(net, m).body == NotCalled;
      assert j == last;
    }
  }

  lemma AcceptingIsSeen(net: Network, at: nat, k: nat, call: nat)
    ensures SeenAccepted(net, at, k, Garbage(net, call)) <==> Accepting(net, at, k, call)
  {
    hide StatusAfter, Garbage, ZeroLeft;
    StatusIsZero(net, at, k + 1, call);
    if SlsReply(net, at + k).body == NotCalled {
      QuietReply(net, at, k + 1, call);
    } else {
      LoudReply(net, at, k + 1, call);
    }
  }

  /** A call stops at the first such reply, after six at the latest, and returns 0 exactly if there was one. */
  lemma SlsCallSays(net: Network, at: nat, call: nat)
    ensures var r := SlsCall(net, at, call);
            && 1 <= r.posts <= 6 && r.ret in {0, 1} && (r.ret == 1 ==> r.posts == 6)
            && (forall k :: 0 <= k < r.posts - 1 ==> !Accepting(net, at, k, call))
            && (r.ret == 0 <==> Accepting(net, at, r.posts - 1, call))
  {
    hide SeenAccepted, Accepting, SlsRun, Garbage;
    var r := SlsCall(net, at, call);
    SlsRunStops(net, at, 0, SLS_POSTS, Garbage(net, call));
    forall k: nat ensures SeenAccepted(net, at, k, Garbage(net, call)) <==> Accepting(net, at, k, call) {
      AcceptingIsSeen(net, at, k, call);
    }
  }

  method SlsCharge(net: Network, at: nat, call: nat) returns (ret: int, posts: nat)
    ensures Charged(ret, posts) == SlsCall(net, at, call)
    ensures 1 <= posts <= 6 && ret in {0, 1} && (ret == 1 ==> posts == 6)
    ensures forall k :: 0 <= k < posts - 1 ==> !Accepting(net, at, k, call)
    ensures ret == 0 <==> Accepting(net, at, posts - 1, call)
  {
    hide ParseCharge, Accepting;
    SlsCallSays(net, at, call);
    ret := 1;
    var retry: nat := 0;
    var status := Garbage(net, call);
    ghost var garbage := status;
    while retry <= 5 && ret != 0
      invariant retry <= SLS_POSTS && status == StatusAfter(net, at, retry, garbage)
      invariant ret == 0 || ret == 1
      invariant SlsCall(net, at, call) ==
                if ret == 0 then Charged(0, retry) else SlsRun(net, at, retry, SLS_POSTS - retry, garbage)
      decreases SLS_POSTS - retry
    {
      retry := retry + 1;
      var reply := SlsReply(net, at + retry - 1);
      status := ParseCharge(reply.body, status);
      if reply.performed {
        if status == 0 {
          ret := 0;
          break;
        } else {
          ret := 1;
          continue;
        }
      } else {
        ret := 1;
        continue;
      }
    }
    return ret, retry;
  }

  // ---------- ChannelImpl::ChargeRequest ----------

  datatype Kind = Sls | LlwwKind | NoKind

  /** Which Charge a channel leads to: the second test looks at the order's interface, not the channel's. */
  function KindOf(channel: string, interfaceName: string, slsName: string, llwwName: string): Kind {
    if channel == slsName then Sls else if interfaceName == llwwName then LlwwKind else NoKind
  }

  /** What one Charge call of this kind returns, and how many SLS posts it makes. */
  function OneCharge(kind: Kind, net: Network, at: nat, call: nat): Charged {
    match kind
    case Sls => SlsCall(net, at, call)
    case LlwwKind => Charged(Llww(net, call), 0)
    case NoKind => Charged(1, 0)
  }

  // The values the Charge calls returned, in order, and the SLS posts they made.
  datatype Attempt = Attempt(ret: int, calls: seq<int>, posts: nat)

  /** At most `left` more tries on one channel, until one returns 0. */
  function Tries(kind: Kind, net: Network, calls: seq<int>, posts: nat, left: nat): Attempt
    decreases left
  {
    if left == 0 then Attempt(if calls == [] then 1 else calls[|calls| - 1], calls, posts)
    else if kind == NoKind then Tries(kind, net, calls, posts, left - 1)
    else
      var c := OneCharge(kind, net, posts, |calls|);
      if c.ret == 0 then Attempt(0, calls + [0], posts + c.posts)
      else Tries(kind, net, calls + [c.ret], posts + c.posts, left - 1)
  }

  /** What ChargeRequest comes to: only the first channel matters. */
  function Request(channels: seq<string>, interfaceName: string, slsName: string, llwwName: string, net: Network):
    Attempt
  {
    if channels == [] then Attempt(1, [], 0)
    else Tries(KindOf(channels[0], interfaceName, slsName, llwwName), net, [], 0, CHARGE_TIMES)
  }

  /** Reply n of a whole request, six to a call that failed, is taken for an acceptance. */
  predicate AcceptingInAll(net: Network, n: nat) {
    Accepting(net, n / 6 * 6, n % 6, n / 6)
  }

  lemma OneMoreCall(net: Network, c: nat)
    ensures var r := SlsCall(net, 6 * c, c);
            && 1 <= r.posts <= 6 && r.ret in {0, 1} && (r.ret == 1 ==> r.posts == 6)
            && (forall n :: 6 * c <= n < 6 * c + r.posts - 1 ==> !AcceptingInAll(net, n))
            && (r.ret == 0 <==> AcceptingInAll(net, 6 * c + r.posts - 1))
  {
    hide SlsCall, Accepting, AcceptingInAll;
    var r := SlsCall(net, 6 * c, c);
    SlsCallSays(net, 6 * c, c);
    forall n | 6 * c <= n < 6 * c + 6 ensures AcceptingInAll(net, n) <==> Accepting(net, 6 * c, n - 6 * c, c) {
      SixToACall(net, c, n - 6 * c);
    }
  }

  lemma TriesTurn(net: Network, calls: seq<int>, left: nat)
    requires left > 0
    ensures var c := SlsCall(net, 6 * |calls|, |calls|);
            Tries(Sls, net, calls, 6 * |calls|, left) ==
            if c.ret == 0 then Attempt(0, calls + [0], 6 * |calls| + c.posts)
            else Tries(Sls, net, calls + [c.ret], 6 * |calls| + c.posts, left - 1)
  {
    hide SlsCall;
  }

  predicate NoneBefore(net: Network, n: nat) {
    forall k :: 0 <= k < n ==> !AcceptingInAll(net, k)
  }

  /** A request has stopped at the first reply taken for an acceptance, or else made thirty posts. */
  predicate SlsOutcome(net: Network, r: Attempt) {
    && 0 < r.posts <= 30 && NoneBefore(net, r.posts - 1)
    && (if AcceptingInAll(net, r.posts - 1) then r.ret == 0 else r.ret == 1 && r.posts == 30)
  }

  lemma CallFails(net: Network, c: nat)
    requires NoneBefore(net, 6 * c) && SlsCall(net, 6 * c, c).ret != 0
    ensures SlsCall(net, 6 * c, c) == Charged(1, 6) && NoneBefore(net, 6 * (c + 1))
  {
    hide SlsCall, AcceptingInAll;
    OneMoreCall(net, c);
  }

  lemma CallAccepts(net: Network, calls: seq<int>)
    requires |calls| < 5 && NoneBefore(net, 6 * |calls|) && SlsCall(net, 6 * |calls|, |calls|).ret == 0
    ensures SlsOutcome(net, Attempt(0, calls + [0], 6 * |calls| + SlsCall(net, 6 * |calls|, |calls|).posts))
  {
    hide SlsCall, AcceptingInAll;
    OneMoreCall(net, |calls|);
  }

  /** From any call on, when all calls so far failed after six posts each. */
  lemma {:induction false} SlsTries(net: Network, calls: seq<int>, left: nat)
    requires |calls| + left == 5 && (calls == [] || calls[|calls| - 1] == 1) && NoneBefore(net, 6 * |calls|)
    ensures SlsOutcome(net, Tries(Sls, net, calls, 6 * |calls|, left))
    decreases left
  {
    hide SlsCall, AcceptingInAll, NoneBefore;
    if left > 0 {
      hide Tries, SlsOutcome;
      TriesTurn(net, calls, left);
      if SlsCall(net, 6 * |calls|, |calls|).ret != 0 {
        CallFails(net, |calls|);
        SlsTries(net, calls + [1], left - 1);
      } else {
        CallAccepts(net, calls);
      }
    } else {
      NoneAtAll(net, calls);
    }
  }

  lemma NoneAtAll(net: Network, calls: seq<int>)
    requires |calls| == 5 && calls[4] == 1 && NoneBefore(net, 30)
    ensures SlsOutcome(net, Attempt(1, calls, 30))
  {
  }

  lemma SixToACall(net: Network, c: nat, k: nat)
    requires k < 6
    ensures AcceptingInAll(net, 6 * c + k) <==> Accepting(net, 6 * c, k, c)
  {
    assert (6 * c + k) / 6 == c && (6 * c + k) % 6 == k;
  }

  lemma {:induction false} LlwwTries(net: Network, calls: seq<int>, left: nat)
    requires |calls| + left == 5
    requires forall n :: 0 <= n < |calls| ==> calls[n] == Llww(net, n) && calls[n] != 0
    ensures var r := Tries(LlwwKind, net, calls, 0, left);
            && r.posts == 0 && |calls| <= |r.calls| <= 5 && (left > 0 ==> |r.calls| > 0)
            && (forall n :: 0 <= n < |r.calls| ==> r.calls[n] == Llww(net, n))
            && (forall n :: 0 <= n < |r.calls| - 1 ==> Llww(net, n) != 0)
            && (r.calls != [] ==> r.ret == Llww(net, |r.calls| - 1)) && (r.ret != 0 ==> |r.calls| == 5)
    decreases left
  {
    hide Llww;
    if left > 0 {
      var v := Llww(net, |calls|);
      assert OneCharge(LlwwKind, net, 0, |calls|) == Charged(v, 0);
      if v != 0 {
        LlwwTries(net, calls + [v], left - 1);
      } else {
        assert Tries(LlwwKind, net, calls, 0, left) == Attempt(0, calls + [0], 0);
      }
    }
  }

  /** What a request comes to, by the first channel and the order's interface. */
  lemma RequestSays(channels: seq<string>, interfaceName: string, slsName: string, llwwName: string, net: Network)
    ensures var r := Request(channels, interfaceName, slsName, llwwName, net);
            && (channels == [] || (channels[0] != slsName && interfaceName != llwwName) ==> r == Attempt(1, [], 0))
            && (channels != [] && channels[0] == slsName ==>
                  && 0 < r.posts <= 30 && (forall n :: 0 <= n < r.posts - 1 ==> !AcceptingInAll(net, n))
                  && (r.ret == 0 <==> AcceptingInAll(net, r.posts - 1)) && (r.ret != 0 ==> r.posts == 30))
            && (channels != [] && channels[0] != slsName && interfaceName == llwwName ==>
                  && r.posts == 0 && 1 <= |r.calls| <= 5
                  && (forall n :: 0 <= n < |r.calls| ==> r.calls[n] == Llww(net, n))
                  && (forall n :: 0 <= n < |r.calls| - 1 ==> Llww(net, n) != 0)
                  && r.ret == Llww(net, |r.calls| - 1) && (r.ret != 0 ==> |r.calls| == 5))
  {
    hide AcceptingInAll, Tries, Llww;
    if channels != [] {
      match KindOf(channels[0], interfaceName, slsName, llwwName)
      case Sls => SlsTries(net, [], 5);
      case LlwwKind => LlwwTries(net, [], 5);
      case NoKind => NoTries(net, 5);
    }
  }

  lemma {:induction false} NoTries(net: Network, left: nat)
    ensures Tries(NoKind, net, [], 0, left) == Attempt(1, [], 0)
  {
    if left > 0 {
      NoTries(net, left - 1);
    }
  }

  method ChargeRequest(channels: seq<string>, interfaceName: string, slsName: string, llwwName: string, net: Network)
    returns (ret: int, calls: seq<int>, posts: nat)
    ensures Attempt(ret, calls, posts) == Request(channels, interfaceName, slsName, llwwName, net)
    ensures channels == [] || (channels[0] != slsName && interfaceName != llwwName) ==>
              ret == 1 && calls == [] && posts == 0
    ensures channels != [] && channels[0] == slsName ==>
              && (ret == 0 <==> exists n :: 0 <= n < 30 && AcceptingInAll(net, n))
              && 0 < posts <= 30 && (forall n :: 0 <= n < posts - 1 ==> !AcceptingInAll(net, n))
              && (ret != 0 ==> posts == 30) && (ret == 0 <==> AcceptingInAll(net, posts - 1))
    ensures channels != [] && channels[0] != slsName && interfaceName == llwwName ==>
              && posts == 0 && 1 <= |calls| <= 5 && (forall n :: 0 <= n < |calls| ==> calls[n] == Llww(net, n))
              && (forall n :: 0 <= n < |calls| - 1 ==> Llww(net, n) != 0)
              && ret == Llww(net, |calls| - 1) && (ret != 0 ==> |calls| == 5)
  {
    hide OneCharge, KindOf, AcceptingInAll;
    ret := 1;
    var index: nat := 0;
    var chargeTimes: nat := 0;
    calls, posts := [], 0;
    while index < |channels|
      invariant index <= |channels| && chargeTimes <= CHARGE_TIMES
      invariant index == 0 ==> ret == 1 && chargeTimes == 0 && calls == [] && posts == 0
      invariant index > 0 ==> ret == 0 || chargeTimes == CHARGE_TIMES
      invariant index > 0 ==> Attempt(ret, calls, posts) == Request(channels, interfaceName, slsName, llwwName, net)
      decreases |channels| - index
    {
      ghost var kind := KindOf(channels[index], interfaceName, slsName, llwwName);
      while chargeTimes < 5 && ret != 0
        invariant chargeTimes <= CHARGE_TIMES
        invariant index > 0 ==> ret == 0 || chargeTimes == CHARGE_TIMES
        invariant ret != 0 ==> ret == (if calls == [] then 1 else calls[|calls| - 1])
        invariant Request(channels, interfaceName, slsName, llwwName, net) ==
                  if index > 0 || ret == 0 then Attempt(ret, calls, posts)
                  else Tries(kind, net, calls, posts, CHARGE_TIMES - chargeTimes)
        decreases CHARGE_TIMES - chargeTimes
      {
        chargeTimes := chargeTimes + 1;
        var called, result, n := Dispatch(channels[index], interfaceName, slsName, llwwName, net, posts, |calls|);
        if called {
          ret := result;
          calls, posts := calls + [ret], posts + n;
        }
      }
      index := index + 1;
    }
    hide Request, Tries;
    RequestSays(channels, interfaceName, slsName, llwwName, net);
  }

  /** The chain of strcmp tests; with neither interface there is no call at all. */
  method Dispatch(channel: string, interfaceName: string, slsName: string, llwwName: string,
                  net: Network, at: nat, call: nat)
    returns (called: bool, ret: int, posts: nat)
    ensures var kind := KindOf(channel, interfaceName, slsName, llwwName);
            && (called <==> kind != NoKind)
            && (called ==> Charged(ret, posts) == OneCharge(kind, net, at, call))
  {
    called, ret, posts := true, 1, 0;
    if channel == slsName {
      ret, posts := SlsCharge(net, at, call);
    } else if interfaceName == llwwName {
      ret := Llww(net, call);
    } else {
      called := false;
    }
  }

  // ---------- what follows ----------

  /** At most five calls, the last one alone may return 0, and the request succeeds exactly when it did. */
  lemma {:induction false} TriesStop(kind: Kind, net: Network, calls: seq<int>, posts: nat, left: nat)
    requires 0 !in calls
    ensures var r := Tries(kind, net, calls, posts, left);
            && calls <= r.calls && |r.calls| <= |calls| + left && r.posts <= posts + left * SLS_POSTS
            && (forall i :: 0 <= i < |r.calls| - 1 ==> r.calls[i] != 0)
            && (r.ret == 0 <==> 0 in r.calls)
            && (r.calls != [] ==> r.ret == r.calls[|r.calls| - 1])
            && (kind == NoKind ==> r.calls == calls)
            && (kind != NoKind ==> r.ret == 0 || |r.calls| == |calls| + left)
    decreases left
  {
    if left > 0 {
      if kind == NoKind {
        TriesStop(kind, net, calls, posts, left - 1);
      } else {
        var c := OneCharge(kind, net, posts, |calls|);
        SlsRunStops(net, posts, 0, SLS_POSTS, Garbage(net, |calls|));
        assert c.posts <= SLS_POSTS;
        if c.ret != 0 {
          TriesStop(kind, net, calls + [c.ret], posts + c.posts, left - 1);
        }
      }
    }
  }

  /**
    For every channel list and every stream of replies: at most five Charge calls, all on the first
    channel; they stop at the first 0, and 0 comes out exactly when there was one. At most 30 SLS posts.
   */
  lemma RequestStops(channels: seq<string>, interfaceName: string, slsName: string, llwwName: string, net: Network)
    ensures var r := Request(channels, interfaceName, slsName, llwwName, net);
            && |r.calls| <= 5 && r.posts <= 30
            && (forall i :: 0 <= i < |r.calls| - 1 ==> r.calls[i] != 0)
            && (r.ret == 0 <==> 0 in r.calls)
            && r.ret == (if r.calls == [] then 1 else r.calls[|r.calls| - 1])
            && (r.calls != [] && r.ret != 0 ==> |r.calls| == 5)
            && (channels == [] ==> r.calls == [])
    ensures forall more: seq<string> :: channels != [] ==>
              Request(channels + more, interfaceName, slsName, llwwName, net)
              == Request(channels, interfaceName, slsName, llwwName, net)
  {
    if channels != [] {
      TriesStop(KindOf(channels[0], interfaceName, slsName, llwwName), net, [], 0, CHARGE_TIMES);
    }
  }

  /** How many of the first n replies of a call are taken for an acceptance. */
  function AcceptedIn(net: Network, at: nat, n: nat, status: int): nat {
    if n == 0 then 0 else AcceptedIn(net, at, n - 1, status) + if SeenAccepted(net, at, n - 1, status) then 1 else 0
  }

  /** The same over all the SLS calls of a request. */
  function AcceptedByCalls(net: Network, calls: seq<int>, posts: nat, left: nat): nat
    decreases left
  {
    if left == 0 then 0
    else
      var c := SlsCall(net, posts, |calls|);
      AcceptedIn(net, posts, c.posts, Garbage(net, |calls|))
      + if c.ret == 0 then 0 else AcceptedByCalls(net, calls + [c.ret], posts + c.posts, left - 1)
  }

  lemma {:induction false} NoneAccepted(net: Network, at: nat, n: nat, status: int)
    requires forall i :: 0 <= i < n ==> !SeenAccepted(net, at, i, status)
    ensures AcceptedIn(net, at, n, status) == 0
  {
    if n > 0 {
      NoneAccepted(net, at, n - 1, status);
    }
  }

  /** With SLS, one reply of a request is taken for an acceptance if the request succeeds, and else none. */
  lemma {:induction false} AcceptedOnce(net: Network, calls: seq<int>, posts: nat, left: nat)
    requires 0 !in calls
    ensures AcceptedByCalls(net, calls, posts, left) == if 0 in Tries(Sls, net, calls, posts, left).calls then 1 else 0
    decreases left
  {
    if left > 0 {
      var status := Garbage(net, |calls|);
      var c := SlsCall(net, posts, |calls|);
      SlsRunStops(net, posts, 0, SLS_POSTS, status);
      hide SlsRun, SeenAccepted, StatusAfter, ParseCharge, Garbage;
      if c.ret == 0 {
        NoneAccepted(net, posts, c.posts - 1, status);
        assert (calls + [0])[|calls|] == 0;
      } else {
        NoneAccepted(net, posts, c.posts, status);
        AcceptedOnce(net, calls + [c.ret], posts + c.posts, left - 1);
      }
    }
  }
}
