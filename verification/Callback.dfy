/**
  src/TopupImpl.cpp, Notify and TmallNotify: at most five posts, until one is answered; the answer,
  or failure, goes into the order table. The replies are an arbitrary stream.
 */
module Callback {
  import opened CText
  import opened UrlCodec
  import opened Form
  import opened Signature
  import opened Orders
  import opened CallbackText

  const MAX_POSTS := 5
  const BUF_SIZE := 2048

  // NoBody: the parser was never called; NoElement: no response/tbOrderSuccess in the document.
  datatype ReplyBody = NoBody | Unparsable | NoElement | Element(text: string)

  /** httpclent_perform's result, and what the parser got to see. */
  datatype Reply = Reply(performed: bool, body: ReplyBody)

  /** parse_tmall_response, on the status it is given to overwrite. */
  function ParseReply(body: ReplyBody, before: int): int {
    match body
    case NoBody => before
    case Unparsable => 0
    case NoElement => NOTIFY_FAIL
    case Element(text) => if text == "T" then NOTIFY_SUCCESS else if text == "F" then NOTIFY_FAIL else before
  }

  /** The notify code one post yields: 0 while it is unanswered. */
  function Answer(r: Reply): int {
    if r.performed then ParseReply(r.body, 0) else 0
  }

  /** The k-th reply of a run; once the given ones are used up, nothing comes back any more. */
  function ReplyAt(net: seq<Reply>, k: int): Reply {
    if 0 <= k < |net| then net[k] else Reply(false, NoBody)
  }

  function AnswerAt(net: seq<Reply>, k: int): int {
    Answer(ReplyAt(net, k))
  }

  // ---------- what a reply means ----------

  /** A reply that leaves the order untold: it did not get through, or says neither T nor F. */
  predicate NoAnswer(r: Reply) {
    || !r.performed || r.body.NoBody? || r.body.Unparsable?
    || (r.body.Element? && r.body.text != "T" && r.body.text != "F")
  }

  /** Only a document whose element says T counts as told; F, and a document without the element, as refused. */
  lemma AnswerSays(r: Reply)
    ensures Answer(r) == 1 <==> r == Reply(true, Element("T"))
    ensures Answer(r) == 2 <==> r.performed && (r.body == Element("F") || r.body == NoElement)
    ensures Answer(r) == 0 <==> NoAnswer(r)
  {
  }

  /** Among the first five replies, T comes before any other answer. */
  predicate TrueFirst(net: seq<Reply>) {
    exists k :: 0 <= k < 5 && k < |net| && net[k] == Reply(true, Element("T"))
                && forall j :: 0 <= j < k ==> NoAnswer(net[j])
  }

  /** The code an order ends up with and the number of its posts, by what the replies say. */
  lemma RoundsSay(net: seq<Reply>)
    ensures var r := PostRounds(net, 0, 5);
            && FinalCode(r.code) == (if TrueFirst(net) then 1 else 2)
            && 1 <= r.posts <= 5
            && (forall j :: 0 <= j < r.posts - 1 ==> NoAnswer(ReplyAt(net, j)))
            && (r.posts == 5 || !NoAnswer(ReplyAt(net, r.posts - 1)))
  {
    hide PostRounds, Answer, NoAnswer;
    var r := PostRounds(net, 0, 5);
    PostRoundsStopAtAnswer(net, 0, 5);
    forall j ensures AnswerAt(net, j) == 0 <==> NoAnswer(ReplyAt(net, j)) {
      AnswerSays(ReplyAt(net, j));
    }
    forall j ensures AnswerAt(net, j) == 1 <==> ReplyAt(net, j) == Reply(true, Element("T")) {
      AnswerSays(ReplyAt(net, j));
    }
    if TrueFirst(net) {
      var k :| 0 <= k < 5 && k < |net| && net[k] == Reply(true, Element("T"))
               && forall j :: 0 <= j < k ==> NoAnswer(net[j]);
      assert forall j :: 0 <= j < k ==> ReplyAt(net, j) == net[j];
      assert AnswerAt(net, k) == 1;
      assert r.posts - 1 == k;
    }
    if FinalCode(r.code) == 1 {
      var k := r.posts - 1;
      assert ReplyAt(net, k) == Reply(true, Element("T"));
      assert k < |net| && net[k] == ReplyAt(net, k);
      assert forall j :: 0 <= j < k ==> ReplyAt(net, j) == net[j] && NoAnswer(net[j]);
    }
  }

  datatype Rounds = Rounds(posts: nat, code: int)

  /** Posting until answered, at most `left` times, from reply k on. */
  function PostRounds(net: seq<Reply>, k: nat, left: nat): Rounds
    decreases left
  {
    if left == 0 then Rounds(0, 0)
    else if AnswerAt(net, k) != 0 then Rounds(1, AnswerAt(net, k))
    else
      var rest := PostRounds(net, k + 1, left - 1);
      Rounds(rest.posts + 1, rest.code)
  }

  /** Posting stops at the first answer, which is the result; without one it goes on to the limit. */
  lemma {:induction false} PostRoundsStopAtAnswer(net: seq<Reply>, k: nat, left: nat)
    ensures var r := PostRounds(net, k, left);
            && r.posts <= left && r.code in {0, NOTIFY_SUCCESS, NOTIFY_FAIL}
            && (forall i :: k <= i < k + r.posts - 1 ==> AnswerAt(net, i) == 0)
            && (r.code == 0 ==> r.posts == left && forall i :: k <= i < k + left ==> AnswerAt(net, i) == 0)
            && (r.code != 0 ==> r.posts > 0 && r.code == AnswerAt(net, k + r.posts - 1))
    decreases left
  {
    if left > 0 && AnswerAt(net, k) == 0 {
      PostRoundsStopAtAnswer(net, k + 1, left - 1);
    }
  }

  /** n posts, of which only the last was answered, and with `code`; or, with code 0, none. */
  predicate Posted(net: seq<Reply>, n: nat, code: int) {
    && (forall i :: 0 <= i < n - 1 ==> AnswerAt(net, i) == 0)
    && (if n == 0 then code == 0 else code == AnswerAt(net, n - 1))
  }

  lemma PostedNone(net: seq<Reply>)
    ensures Posted(net, 0, 0)
  {
  }

  lemma PostedOneMore(net: seq<Reply>, n: nat)
    requires Posted(net, n, 0)
    ensures Posted(net, n + 1, AnswerAt(net, n))
  {
  }

  lemma {:induction false} PostedIsRounds(net: seq<Reply>, n: nat, code: int, k: nat, left: nat)
    requires Posted(net, n, code) && (code != 0 || n == k + left) && k <= n <= k + left
    requires k < n || code == 0
    ensures PostRounds(net, k, left) == Rounds(n - k, code)
    decreases left
  {
    if k < n - 1 {
      PostedIsRounds(net, n, code, k + 1, left - 1);
    } else if k == n - 1 && code == 0 {
      PostedIsRounds(net, n, code, k + 1, left - 1);
    }
  }

  /** The code the order ends up with. */
  function FinalCode(code: int): int {
    if code == 0 then NOTIFY_FAIL else code
  }

  predicate MissingField(o: Order) {
    o.coopId == "" || o.tbOrderNo == "" || o.coopOrderNo == "" || o.notifyUrl == ""
  }

  predicate Settled(s: OrderStatus) {
    s == SUCCESS || s == FAILED
  }

  /** What is posted for an order, the same in every round. */
  function PostOf(o: Order, s: OrderStatus, privateKey: string, md5: Digest): string {
    if s == SUCCESS then SuccessPost(o, privateKey, md5) else FailedPost(o, privateKey, md5)
  }

  /** A text that is signed: a C string, in the 2048 bytes of buf, whose signed form fits as well. */
  predicate Signable(text: string, privateKey: string) {
    NUL !in text && QueryFits(text) && |SignText(MapOf(text))| + |privateKey| < SIGN_BUFFER
  }

  /** The sizes TmallNotify's buffers have. */
  predicate BuffersSuffice(o: Order, s: OrderStatus, privateKey: string) {
    && SnapAllowed(o)
    && (s == SUCCESS ==> Signable(SuccessText(o, o.tbOrderSnap), privateKey)
                         && |SuccessText(o, EncodedSnap(o))| + |"&sign="| + 32 < BUF_SIZE)
    && (s == FAILED ==> Signable(FailedText(o), privateKey) && |FailedText(o)| + |"&sign="| + 32 < BUF_SIZE)
  }

  class TopupImpl {
    const info: TopupInfo
    const conn: OrderTable
    const privateKey: string
    const md5: Digest

    constructor (info: TopupInfo, conn: OrderTable, privateKey: string, md5: Digest)
      ensures this.info == info && this.conn == conn && this.privateKey == privateKey && this.md5 == md5
    {
      this.info, this.conn, this.privateKey, this.md5 := info, conn, privateKey, md5;
    }

    /** snap_encode[256] = {0}, filled by url_encode and read as a C string. */
    method EncodeSnapshot() returns (text: string)
      requires SnapAllowed(info.order)
      ensures text == EncodedSnap(info.order)
    {
      var snapEncode := new char[SNAP_SIZE](_ => NUL);
      var n := UrlEncode(info.order.tbOrderSnap, snapEncode, SNAP_SIZE);
      EncodeIntoIsEncode(info.order.tbOrderSnap, SNAP_SIZE);
      EncodeIsPlain(info.order.tbOrderSnap);
      ghost var filled := EncodeInto(info.order.tbOrderSnap, SNAP_SIZE).text;
      ReadBack(snapEncode[..], filled);
      CStrWhole(filled);
      text := CStr(snapEncode[..]);
    }

    /** One round: build the text, sign it, build the post. url_signature returns 0 for a text that fits. */
    method BuildPost() returns (post: string)
      requires BuffersSuffice(info.order, info.status, privateKey)
      requires Settled(info.status)
      ensures post == PostOf(info.order, info.status, privateKey, md5)
    {
      hide SuccessText, FailedText, AllFit, Segments, MapOf, SignText, SnapAllowed, IsMd5Text;
      var o := info.order;
      var snapEncode := EncodeSnapshot();
      if info.status == SUCCESS {
        var buf := SuccessText(o, o.tbOrderSnap);
        var status, md5str := UrlSignature(buf, privateKey, md5);
        post := SuccessText(o, snapEncode) + "&" + ("sign=" + md5str);
      } else {
        var buf := FailedText(o);
        var status, md5str := UrlSignature(buf, privateKey, md5);
        post := buf + "&" + ("sign=" + md5str);
      }
    }

    /** One turn of the loop: the checks, the post and the reply. `left` tells that it returned, with `ret`. */
    method Round(reply: Reply) returns (left: bool, ret: int, post: string, notifyStatus: int)
      requires BuffersSuffice(info.order, info.status, privateKey)
      ensures left <==> MissingField(info.order) || !Settled(info.status)
      ensures left ==> ret == if MissingField(info.order) then 1 else 0
      ensures !left ==> post == PostOf(info.order, info.status, privateKey, md5) && notifyStatus == Answer(reply)
    {
      hide PostOf, BuffersSuffice;
      left, ret, post, notifyStatus := true, 1, "", 0;
      if info.order.coopId == "" {
        return;
      }
      if info.order.tbOrderNo == "" {
        return;
      }
      if info.order.coopOrderNo == "" {
        return;
      }
      if info.order.notifyUrl == "" {
        return;
      }
      if info.status != SUCCESS && info.status != FAILED {
        ret := 0;
        return;
      }
      left := false;
      post := BuildPost();
      notifyStatus := ParseReply(reply.body, notifyStatus);
      if !reply.performed {
        notifyStatus := 0;
      }
    }

    /** The loop of TmallNotify. */
    method PostUntilAnswered(net: seq<Reply>) returns (left: bool, ret: int, notifyStatus: int, posts: seq<string>)
      requires BuffersSuffice(info.order, info.status, privateKey)
      ensures left <==> MissingField(info.order) || !Settled(info.status)
      ensures left ==> ret == (if MissingField(info.order) then 1 else 0) && posts == []
      ensures !left ==> PostRounds(net, 0, MAX_POSTS) == Rounds(|posts|, notifyStatus)
      ensures forall i :: 0 <= i < |posts| ==> posts[i] == PostOf(info.order, info.status, privateKey, md5)
    {
      hide PostRounds, PostOf, Settled, BuffersSuffice, MissingField, IsMd5Text, Answer, ParseReply, Posted;
      var retry: nat := MAX_POSTS;
      ghost var text := PostOf(info.order, info.status, privateKey, md5);
      left, ret, notifyStatus, posts := false, 0, 0, [];
      PostedNone(net);
      while retry > 0 && notifyStatus == 0
        invariant retry <= MAX_POSTS && |posts| == MAX_POSTS - retry && (retry == MAX_POSTS ==> notifyStatus == 0)
        invariant retry < MAX_POSTS ==> !MissingField(info.order) && Settled(info.status)
        invariant forall i :: 0 <= i < |posts| ==> posts[i] == text
        invariant Posted(net, |posts|, notifyStatus)
        decreases retry
      {
        retry := retry - 1;
        PostedOneMore(net, |posts|);
        var post;
        left, ret, post, notifyStatus := Round(ReplyAt(net, |posts|));
        if left {
          return true, ret, 0, [];
        }
        posts := posts + [post];
      }
      PostedIsRounds(net, |posts|, notifyStatus, 0, MAX_POSTS);
      left := false;
    }

    method TmallNotify(net: seq<Reply>, outcome: DbOutcome) returns (ret: int, posts: seq<string>)
      requires BuffersSuffice(info.order, info.status, privateKey)
      modifies info, conn
      ensures info.order == old(info.order) && info.status == old(info.status)
      ensures info.createTime == old(info.createTime) && info.lastOpTime == old(info.lastOpTime)
      ensures MissingField(info.order) || !Settled(info.status) ==>
                && ret == (if MissingField(info.order) then 1 else 0) && posts == []
                && info.View() == old(info.View()) && conn.rows == old(conn.rows)
      ensures !MissingField(info.order) && Settled(info.status) ==>
                var r := PostRounds(net, 0, MAX_POSTS);
                && ret == 0 && |posts| == r.posts
                && (forall i :: 0 <= i < |posts| ==> posts[i] == PostOf(info.order, info.status, privateKey, md5))
                && info.notify == FinalCode(r.code)
                && conn.rows == RowsAfter(old(conn.rows), info.View(), outcome)
      ensures posts != [] <==> && info.order.coopId != "" && info.order.tbOrderNo != ""
                               && info.order.coopOrderNo != "" && info.order.notifyUrl != ""
                               && (info.status == SUCCESS || info.status == FAILED)
      ensures posts != [] ==> info.notify == if TrueFirst(net) then 1 else 2
      ensures posts != [] ==>
                && |posts| <= 5 && (forall j :: 0 <= j < |posts| - 1 ==> NoAnswer(ReplyAt(net, j)))
                && (|posts| < 5 ==> !NoAnswer(ReplyAt(net, |posts| - 1)))
      ensures conn.rows == if posts == [] || outcome != Committed || info.order.coopOrderNo !in old(conn.rows)
                           then old(conn.rows)
                           else old(conn.rows)[info.order.coopOrderNo :=
                                  Row(if info.status == SUCCESS then 1 else 2, if TrueFirst(net) then 1 else 2)]
    {
      hide PostRounds, PostOf, Signable, SnapAllowed, TrueFirst, NoAnswer, FinalCode;
      RoundsSay(net);
      var left, code, notifyStatus;
      left, code, notifyStatus, posts := PostUntilAnswered(net);
      if left {
        return code, posts;
      }
      Record(notifyStatus, outcome);
      return 0, posts;
    }

    /** What comes behind the loop: the answer, or failure, goes into the order and its row. */
    method Record(notifyStatus: int, outcome: DbOutcome)
      modifies info, conn
      ensures info.View() == old(info.View()).(notify := FinalCode(notifyStatus))
      ensures conn.rows == RowsAfter(old(conn.rows), info.View(), outcome)
    {
      if notifyStatus == 0 {
        info.notify := NOTIFY_FAIL;
      } else {
        info.notify := notifyStatus;
      }
      var updated := conn.UpdateOrderStatus(info, outcome);
    }

    /** Nothing is posted for an order whose row already holds a notify code. */
    method Notify(net: seq<Reply>, readable: bool, outcome: DbOutcome) returns (posts: seq<string>)
      requires BuffersSuffice(info.order, info.status, privateKey)
      modifies info, conn
      ensures info.order == old(info.order) && info.status == old(info.status)
      ensures info.createTime == old(info.createTime) && info.lastOpTime == old(info.lastOpTime)
      ensures var known := if readable && info.order.coopOrderNo in old(conn.rows)
                           then old(conn.rows)[info.order.coopOrderNo].notify else 0;
              if known != 0 || MissingField(info.order) || !Settled(info.status)
              then posts == [] && info.notify == old(info.notify) && conn.rows == old(conn.rows)
              else
                var r := PostRounds(net, 0, MAX_POSTS);
                && |posts| == r.posts
                && (forall i :: 0 <= i < |posts| ==> posts[i] == PostOf(info.order, info.status, privateKey, md5))
                && info.notify == FinalCode(r.code)
                && conn.rows == RowsAfter(old(conn.rows), info.View(), outcome)
    {
      posts := [];
      var notify := conn.GetNotifyStatus(info.order.coopOrderNo, readable);
      if notify == 0 {
        var ret;
        ret, posts := TmallNotify(net, outcome);
      }
    }
  }
}
