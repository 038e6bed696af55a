/**
  The posts of TmallNotify meet a receiver with the same buffers: what its own buffers held, the
  receiver's hold as well.
 */
module Receiver {
  import opened CText
  import opened UrlCodec
  import opened Form
  import opened Signature
  import opened Orders
  import opened CallbackText
  import opened Snapshot
  import opened Callback

  /** The key is not longer than what "&sign=" and the digest take up in a post. */
  predicate KeyFits(privateKey: string) {
    privateKey != "" && |privateKey| <= |"&sign="| + 32
  }

  /** A receiver can read a text: it is a C string that fits its buffers, and so does what it signs. */
  predicate Readable(post: string, privateKey: string) {
    NUL !in post && QueryFits(post) && |SignText(MapOf(post))| + |privateKey| < SIGN_BUFFER
  }

  lemma SumFits(x: seq<string>, y: seq<string>)
    ensures AllFit(x + y) <==> AllFit(x) && AllFit(y)
  {
    hide SegmentFits;
    if AllFit(x + y) {
      forall i | 0 <= i < |x| ensures SegmentFits(x[i]) { assert (x + y)[i] == x[i]; }
      forall i | 0 <= i < |y| ensures SegmentFits(y[i]) { assert (x + y)[|x| + i] == y[i]; }
    }
  }

  /** "key=text" without '&', and not longer than the buffers. */
  lemma ShortSegmentFits(key: string, text: string)
    requires '&' !in key && '=' !in key && '&' !in text && |key| < MAX_KLEN && |text| + 1 < MAX_VLEN
    ensures AllFit(Segments(key + "=" + text))
  {
    hide Decode, IndexOf, Segments;
    var seg := key + "=" + text;
    SingleSegment(seg);
    assert seg[..|key|] == key && seg[|key| + 1..] == text;
    IndexOfUnique(seg, '=', |key|);
    DecodeFixesExactly(text + [NUL]);
  }

  lemma SignFits(sig: string)
    requires IsMd5Text(sig)
    ensures AllFit(Segments("sign=" + sig)) && NUL !in "sign=" + sig
  {
    hide AllFit, Segments;
    assert "sign" + "=" + sig == "sign=" + sig;
    ShortSegmentFits("sign", sig);
  }

  /** A signed text is readable if the text fits and leaves room for the signature. */
  lemma SignedPostReadable(text: string, sig: string, privateKey: string)
    requires NUL !in text && AllFit(Segments(text)) && IsMd5Text(sig) && KeyFits(privateKey)
    requires |text| + |"&sign="| + 32 < BUF_SIZE
    ensures Readable(text + "&" + ("sign=" + sig), privateKey)
  {
    hide AllFit, Segments, SignText, InsertAll, IsMd5Text, Sorted, Weight, Pairs;
    var post := text + "&" + ("sign=" + sig);
    SignFits(sig);
    SegmentsOfSum(text, "sign=" + sig);
    SumFits(Segments(text), Segments("sign=" + sig));
    PostPairs(text, sig);
    PairsWeigh(text);
    SignedLength(Pairs(text), sig);
    assert |sig| == 32 by { Md5Length(sig); }
  }

  lemma Md5Length(sig: string)
    requires IsMd5Text(sig)
    ensures |sig| == 32
  {
  }

  lemma SignedLength(ps: seq<Pair>, sig: string)
    ensures |SignText(InsertAll([], ps + [SignPair(sig)]))| <= Weight(ps)
  {
    hide SignText, InsertAll, Sorted, Weight;
    InsertAllSum([], ps, [SignPair(sig)]);
    InsertOne(InsertAll([], ps), SignPair(sig));
    SortedEmpty();
    FilledIsSorted([], ps);
    LengthOfInserted(InsertAll([], ps), SignPair(sig));
    LengthOfAll([], ps);
    assert SignText([]) == "" by { NothingSigned(); }
  }

  lemma NothingSigned()
    ensures SignText([]) == ""
  {
  }

  /** The encoded snapshot fits wherever the raw one did. */
  lemma EncodedTextFits(o: Order)
    requires SnapAllowed(o) && NUL !in SuccessText(o, o.tbOrderSnap)
    requires AllFit(Segments(SuccessText(o, o.tbOrderSnap)))
    ensures NUL !in SuccessText(o, EncodedSnap(o)) && AllFit(Segments(SuccessText(o, EncodedSnap(o))))
  {
    hide AllFit, Segments, Head, EncodeInto, IsBytes, Fitting, Encode;
    var head, time, enc := Head(o, "SUCCESS"), "coopOrderSuccessTime=", EncodedSnap(o);
    KeptIsPosted(o);
    EncodeIsPlain(Kept(o));
    EncodeIntoIsEncode(o.tbOrderSnap, SNAP_SIZE);
    SegmentsOfSum(head, "coopOrderSnap" + "=" + o.tbOrderSnap + "&" + time);
    SumFits(Segments(head), Segments("coopOrderSnap" + "=" + o.tbOrderSnap + "&" + time));
    SegmentsOfSum(head, "coopOrderSnap" + "=" + enc + "&" + time);
    SegmentsOfSum("coopOrderSnap" + "=" + enc, time);
    ShortSegmentFits("coopOrderSnap", enc);
    ShortSegmentFits("coopOrderSuccessTime", "");
    assert "coopOrderSuccessTime" + "=" + "" == time;
    SumFits(Segments("coopOrderSnap" + "=" + enc), Segments(time));
    SumFits(Segments(head), Segments("coopOrderSnap" + "=" + enc) + Segments(time));
    HeadHasNoNul(o);
  }

  lemma HeadHasNoNul(o: Order)
    requires NUL !in SuccessText(o, o.tbOrderSnap)
    ensures NUL !in Head(o, "SUCCESS")
  {
    hide Head;
    var t := SuccessText(o, o.tbOrderSnap);
    forall i | 0 <= i < |Head(o, "SUCCESS")| ensures Head(o, "SUCCESS")[i] != NUL {
      assert t[i] == Head(o, "SUCCESS")[i];
    }
  }

  /** Whatever TmallNotify can post without running over its own buffers is readable for the receiver. */
  lemma PostIsReadable(o: Order, s: OrderStatus, privateKey: string, md5: Digest)
    requires Settled(s) && BuffersSuffice(o, s, privateKey) && KeyFits(privateKey)
    ensures Readable(PostOf(o, s, privateKey, md5), privateKey)
  {
    hide SuccessText, FailedText, AllFit, Segments, MapOf, SignText, SnapAllowed, IsMd5Text;
    hide EncodedSnap, Readable, KeyFits;
    if s == SUCCESS {
      EncodedTextFits(o);
      var sig := SuccessSignature(o, privateKey, md5);
      SignatureIsMd5(MapOf(SuccessText(o, o.tbOrderSnap)), privateKey, md5);
      SignedPostReadable(SuccessText(o, EncodedSnap(o)), sig, privateKey);
    } else {
      SignatureIsMd5(MapOf(FailedText(o)), privateKey, md5);
      SignedPostReadable(FailedText(o), SignatureOf(MapOf(FailedText(o)), privateKey, md5), privateKey);
    }
  }

  lemma SignatureIsMd5(es: seq<Pair>, privateKey: string, md5: Digest)
    requires KeyFits(privateKey)
    ensures IsMd5Text(SignatureOf(es, privateKey, md5))
  {
    SignatureShape(es, privateKey, md5);
  }

  /** So the receiver reads every such post, and decides as the theorems on Receives say. */
  method ReceivePost(o: Order, s: OrderStatus, privateKey: string, md5: Digest) returns (ok: bool)
    requires Settled(s) && BuffersSuffice(o, s, privateKey) && KeyFits(privateKey)
    ensures ok <==> Receives(PostOf(o, s, privateKey, md5), privateKey, md5)
    ensures s == FAILED && FieldsStand(o) ==> ok
    ensures s == SUCCESS && FieldsStand(o) && RestSilent(o) && ReadsAlike(o) ==> ok
  {
    hide Receives, PostOf, BuffersSuffice, AllFit, Segments, SignText, MapOf, Pairs;
    hide FieldsStand, RestSilent, ReadsAlike;
    PostIsReadable(o, s, privateKey, md5);
    FailedOrSilent(o, s, privateKey, md5);
    ok := Receive(PostOf(o, s, privateKey, md5), privateKey, md5);
  }

  lemma FailedOrSilent(o: Order, s: OrderStatus, privateKey: string, md5: Digest)
    requires Settled(s) && BuffersSuffice(o, s, privateKey) && KeyFits(privateKey)
    ensures s == FAILED && FieldsStand(o) ==> Receives(PostOf(o, s, privateKey, md5), privateKey, md5)
    ensures s == SUCCESS && FieldsStand(o) && RestSilent(o) && ReadsAlike(o) ==>
              Receives(PostOf(o, s, privateKey, md5), privateKey, md5)
  {
    hide Receives, SnapAllowed, FieldsStand, RestSilent, ReadsAlike, Signable, SuccessText, FailedText, Pairs, Find;
    if FieldsStand(o) {
      if s == FAILED {
        FailedHasNoSign(o);
        FailedCallbackAccepted(o, privateKey, md5);
      } else {
        SnapshotDecides(o, privateKey, md5);
      }
    }
  }

  lemma FailedHasNoSign(o: Order)
    requires FieldsStand(o)
    ensures Find(Pairs(FailedText(o)), "sign") == None
  {
    hide Pairs, FailedText, Find, ValueOf;
    FailedPairs(o);
    assert |"sign"| == 4 && |"coopId"| == 6 && |"tbOrderNo"| == 9;
    assert |"coopOrderNo"| == 11 && |"coopOrderStatus"| == 15 && |"failedCode"| == 10;
    FindNoneOfFive(Pairs(FailedText(o)), "sign");
  }

  lemma FailedPairs(o: Order)
    requires FieldsStand(o)
    ensures Pairs(FailedText(o)) ==
            [Pair("coopId", ValueOf(o.coopId)), Pair("tbOrderNo", ValueOf(o.tbOrderNo)),
             Pair("coopOrderNo", ValueOf(o.coopOrderNo)), Pair("coopOrderStatus", ValueOf("FAILED")),
             Pair("failedCode", ValueOf("0501"))]
  {
    hide Pairs, ValueOf, Head;
    HeadOfStatus(o, "FAILED");
    PairsSplit(Head(o, "FAILED"), "failedCode=0501");
    OnePair("failedCode", "0501");
    assert "failedCode" + "=" + "0501" == "failedCode=0501";
  }

  /** The pairs a receiver finds in a post of TmallNotify, one by one. */
  lemma PostSays(o: Order, s: OrderStatus, privateKey: string, md5: Digest) returns (sig: string)
    requires FieldsStand(o) && SnapAllowed(o) && KeyFits(privateKey) && (s == SUCCESS || s == FAILED)
    ensures IsMd5Text(sig)
    ensures Pairs(PostOf(o, s, privateKey, md5)) ==
            [Pair("coopId", ValueOf(o.coopId)), Pair("tbOrderNo", ValueOf(o.tbOrderNo)),
             Pair("coopOrderNo", ValueOf(o.coopOrderNo))]
            + (if s == SUCCESS
               then [Pair("coopOrderStatus", "SUCCESS"), Pair("coopOrderSnap", Fitting(o.tbOrderSnap, 256)),
                     Pair("coopOrderSuccessTime", "")]
               else [Pair("coopOrderStatus", "FAILED"), Pair("failedCode", "0501")])
            + [Pair("sign", sig)]
  {
    hide Pairs, ValueOf, SuccessText, FailedText, HeadPairs, IsMd5Text, MapOf, SnapAllowed, Fitting;
    if s == SUCCESS {
      sig := SuccessSignature(o, privateKey, md5);
      SignatureIsMd5(MapOf(SuccessText(o, o.tbOrderSnap)), privateKey, md5);
      PostPairs(SuccessText(o, EncodedSnap(o)), sig);
      KeptIsPosted(o);
      SuccessPairs(o, EncodedSnap(o));
      HeadOfFour(o);
      ValueOfPlain("SUCCESS");
    } else {
      sig := SignatureOf(MapOf(FailedText(o)), privateKey, md5);
      SignatureIsMd5(MapOf(FailedText(o)), privateKey, md5);
      PostPairs(FailedText(o), sig);
      FailedPairs(o);
      ValueOfPlain("FAILED");
      ValueOfPlain("0501");
    }
  }

  lemma FindNoneOfFive(ps: seq<Pair>, key: string)
    requires |ps| == 5 && forall i :: 0 <= i < 5 ==> ps[i].key != key
    ensures Find(ps, key) == None
  {
    FindNoneOfFour(ps[1..], key);
  }
}
