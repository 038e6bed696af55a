/**
  src/TopupImpl.cpp, TmallNotify: the text that is signed and the text that is posted. The SUCCESS
  callback is signed with the raw snapshot and posted with the encoded one, so a receiver accepts it
  if the two texts sign alike, and short of an MD5 collision only then.
 */
module CallbackText {
  import opened CText
  import opened UrlCodec
  import opened Form
  import opened Signature
  import opened Orders

  const SNAP_SIZE := 256

  function Head(o: Order, result: string): string {
    "coopId=" + o.coopId + "&tbOrderNo=" + o.tbOrderNo + "&coopOrderNo=" + o.coopOrderNo + "&coopOrderStatus=" + result
  }

  /** The parameters of the SUCCESS callback, with the snapshot in a given form. The time is always empty. */
  function SuccessText(o: Order, snap: string): string {
    Head(o, "SUCCESS") + "&" + ("coopOrderSnap" + "=" + snap + "&" + "coopOrderSuccessTime=")
  }

  function FailedText(o: Order): string {
    Head(o, "FAILED") + "&" + "failedCode=0501"
  }

  /** snap_encode after the call of url_encode, whose result is ignored. */
  function EncodedSnap(o: Order): string {
    EncodeInto(o.tbOrderSnap, SNAP_SIZE).text
  }

  function SuccessSignature(o: Order, privateKey: string, md5: Digest): string {
    SignatureOf(MapOf(SuccessText(o, o.tbOrderSnap)), privateKey, md5)
  }

  function SuccessPost(o: Order, privateKey: string, md5: Digest): string {
    SuccessText(o, EncodedSnap(o)) + "&" + ("sign=" + SuccessSignature(o, privateKey, md5))
  }

  function FailedPost(o: Order, privateKey: string, md5: Digest): string {
    FailedText(o) + "&" + ("sign=" + SignatureOf(MapOf(FailedText(o)), privateKey, md5))
  }

  /** A receiver that parses the post and checks its signature. */
  predicate Receives(post: string, privateKey: string, md5: Digest) {
    Accepts(MapOf(post), privateKey, md5)
  }

  /** Such a receiver, on buffers like those of this side. */
  method Receive(post: string, privateKey: string, md5: Digest) returns (ok: bool)
    requires NUL !in post
    requires |post| <= MAX_QUERYSTRING ==>
               QueryFits(post) && |SignText(MapOf(post))| + |privateKey| < SIGN_BUFFER
    ensures ok <==> |post| <= MAX_QUERYSTRING && Receives(post, privateKey, md5)
    ensures exists ps :: SignedList(ps, Pairs(post))
              && (ok <==> |post| <= 2048 && SignedBy(Pairs(post), InARow(ps) + privateKey, md5))
  {
    hide SignText, InsertAll, Accepts, Sorted, QueryFits, Pairs, SignedList, SignedBy, InARow;
    DecidesInOrder(Pairs(post), privateKey, md5);
    var mapEntitys := new FormData();
    var parsed := ParseParams(post, mapEntitys);
    if !parsed {
      return false;
    }
    ok := CheckSign(mapEntitys, privateKey, md5);
  }

  /** Whatever was signed, its signature posted behind it is accepted. */
  lemma SignedTextReceived(text: string, privateKey: string, md5: Digest)
    requires Find(Pairs(text), "sign") == None && privateKey != ""
    ensures Receives(text + "&" + ("sign=" + SignatureOf(MapOf(text), privateKey, md5)), privateKey, md5)
  {
    hide SignText, InsertAll, Accepts, Find, SignatureOf, Segments, IsMd5Text;
    var sig := SignatureOf(MapOf(text), privateKey, md5);
    var ps := Pairs(text);
    SignatureShape(MapOf(text), privateKey, md5);
    PostPairs(text, sig);
    SignedPairsAccepted(ps, |ps|, privateKey, md5);
    assert ps[..|ps|] + [SignPair(sig)] + ps[|ps|..] == ps + [SignPair(sig)];
  }

  lemma PostPairs(text: string, sig: string)
    requires IsMd5Text(sig)
    ensures Pairs(text + "&" + ("sign=" + sig)) == Pairs(text) + [SignPair(sig)]
  {
    PairsSplit(text, "sign=" + sig);
    SignSegment(sig);
    SingleSegment("sign=" + sig);
  }

  /** The FAILED callback carries what was signed, so it is always accepted. */
  lemma FailedCallbackAccepted(o: Order, privateKey: string, md5: Digest)
    requires Find(Pairs(FailedText(o)), "sign") == None && privateKey != ""
    ensures Receives(FailedPost(o, privateKey, md5), privateKey, md5)
  {
    SignedTextReceived(FailedText(o), privateKey, md5);
  }

  // ---------- the pairs of a SUCCESS callback ----------

  function HeadPairs(o: Order): seq<Pair> {
    Pairs(Head(o, "SUCCESS"))
  }

  /** With a snapshot free of '&', the two parameters behind the head are two pairs. */
  lemma SuccessPairs(o: Order, snap: string)
    requires '&' !in snap
    ensures Pairs(SuccessText(o, snap))
            == HeadPairs(o) + [Pair("coopOrderSnap", ValueOf(snap)), Pair("coopOrderSuccessTime", "")]
  {
    hide Pairs;
    var snapText, timeText := "coopOrderSnap" + "=" + snap, "coopOrderSuccessTime=";
    PairsSplit(Head(o, "SUCCESS"), snapText + "&" + timeText);
    PairsSplit(snapText, timeText);
    OnePair("coopOrderSnap", snap);
    TimePair();
  }

  lemma TimePair()
    ensures Pairs("coopOrderSuccessTime=") == [Pair("coopOrderSuccessTime", "")]
  {
    hide Pairs, ValueOf;
    OnePair("coopOrderSuccessTime", "");
    ValueOfPlain("");
    assert "coopOrderSuccessTime" + "=" + "" == "coopOrderSuccessTime=";
  }

  // ---------- when the two texts sign alike ----------

  /** The receiver's signed text: what was posted, without the signature. */
  function PostedText(o: Order): string {
    SignText(MapOf(SuccessText(o, EncodedSnap(o))))
  }

  function SignedText(o: Order): string {
    SignText(MapOf(SuccessText(o, o.tbOrderSnap)))
  }

  /** A snapshot TmallNotify can be given: a C string, and url_encode stays inside its 256 bytes. */
  predicate SnapAllowed(o: Order) {
    IsBytes(o.tbOrderSnap) && NUL !in o.tbOrderSnap && !EncodeInto(o.tbOrderSnap, SNAP_SIZE).outcome.Overrun?
  }

  predicate Clean(s: string) {
    '%' !in s && '+' !in s && '&' !in s
  }

  /** The receiver compares two digests: of what was signed and of what was posted. */
  lemma ReceiverCompares(o: Order, privateKey: string, md5: Digest)
    requires SnapAllowed(o) && Find(HeadPairs(o), "sign") == None && privateKey != ""
    ensures Receives(SuccessPost(o, privateKey, md5), privateKey, md5)
            <==> Hash(md5, SignedText(o) + privateKey) == Hash(md5, PostedText(o) + privateKey)
  {
    hide Pairs, InsertAll, SignText, Sorted, IsMd5Text, Find, IsBytes;
    var text, sig := SuccessText(o, EncodedSnap(o)), SuccessSignature(o, privateKey, md5);
    KeptIsPosted(o);
    SuccessPairs(o, EncodedSnap(o));
    SignatureShape(MapOf(SuccessText(o, o.tbOrderSnap)), privateKey, md5);
    NoSign(o, ValueOf(EncodedSnap(o)));
    PostPairs(text, sig);
    AppendedSign(Pairs(text), sig);
    Md5NotEmpty(md5, SignedText(o) + privateKey);
  }

  lemma Md5NotEmpty(md5: Digest, text: string)
    ensures Hash(md5, text) != ""
  {
    assert IsMd5Text(Hash(md5, text));
  }

  /** What is kept of the snapshot in snap_encode. */
  function Kept(o: Order): string {
    Fitting(o.tbOrderSnap, SNAP_SIZE)
  }

  /** The receiver reads it as it was. */
  lemma KeptIsPosted(o: Order)
    requires SnapAllowed(o)
    ensures Kept(o) <= o.tbOrderSnap && EncodedSnap(o) == Encode(Kept(o))
    ensures '&' !in EncodedSnap(o) && ValueOf(EncodedSnap(o)) == Kept(o)
  {
    hide Decode, CStr;
    EncodesFitting(o.tbOrderSnap, SNAP_SIZE);
    EncodeIsPlain(Kept(o));
    ValueOfEncoded(Kept(o));
  }

  lemma NoSign(o: Order, v: string)
    requires Find(HeadPairs(o), "sign") == None
    ensures Find(HeadPairs(o) + [Pair("coopOrderSnap", v), Pair("coopOrderSuccessTime", "")], "sign") == None
  {
    hide Pairs, Find;
    var tail := [Pair("coopOrderSnap", v), Pair("coopOrderSuccessTime", "")];
    assert |"sign"| < |"coopOrderSnap"| < |"coopOrderSuccessTime"|;
    FindSum(HeadPairs(o), tail, "sign");
    FindNoneOfTwo(tail[0], tail[1], "sign");
  }

  lemma FindNoneOfTwo(p: Pair, q: Pair, key: string)
    requires p.key != key && q.key != key
    ensures Find([p, q], key) == None
  {
    assert [q][1..] == [] && Find([q], key) == None;
    assert [p, q][1..] == [q];
  }

  /** A signature behind the pairs is the one found, and does not change the signed text. */
  lemma AppendedSign(ps: seq<Pair>, sig: string)
    requires Find(ps, "sign") == None
    ensures Find(InsertAll([], ps + [SignPair(sig)]), "sign") == Some(sig)
    ensures SignText(InsertAll([], ps + [SignPair(sig)])) == SignText(InsertAll([], ps))
  {
    hide InsertAll, SignText, Sorted;
    var qs := ps + [SignPair(sig)];
    assert ps[..|ps|] + [SignPair(sig)] + ps[|ps|..] == qs;
    forall key
      ensures Find(InsertAll([], qs), key) == if key == "sign" then Some(sig) else Find(InsertAll([], ps), key)
    {
      FindInsertAll([], ps, key);
      FindInsertAll([], qs, key);
      FindSigned(ps, |ps|, sig, key);
    }
    SortedEmpty();
    FilledIsSorted([], ps);
    FilledIsSorted([], qs);
    SignTextIgnoresSign(InsertAll([], ps), InsertAll([], qs));
  }

  /** Two snapshot values behind one head sign alike only when they are the same. */
  lemma ValueShows(o: Order, v: string, w: string)
    requires Find(HeadPairs(o), "coopOrderSnap") == None
    ensures var time := Pair("coopOrderSuccessTime", "");
            (SignText(InsertAll([], HeadPairs(o) + [Pair("coopOrderSnap", v), time]))
             == SignText(InsertAll([], HeadPairs(o) + [Pair("coopOrderSnap", w), time]))) <==> v == w
  {
    hide Pairs, InsertAll, SignText, Sorted, Find;
    var time := Pair("coopOrderSuccessTime", "");
    var x, y := HeadPairs(o) + [Pair("coopOrderSnap", v), time], HeadPairs(o) + [Pair("coopOrderSnap", w), time];
    if v != w {
      forall key
        ensures Find(InsertAll([], x), key) == FindBehind(HeadPairs(o), v, key)
        ensures Find(InsertAll([], y), key) == FindBehind(HeadPairs(o), w, key)
      {
        LookupBehind(HeadPairs(o), v, key);
        LookupBehind(HeadPairs(o), w, key);
      }
      SortedEmpty();
      FilledIsSorted([], x);
      FilledIsSorted([], y);
      SignTextShowsValue(InsertAll([], x), InsertAll([], y), "coopOrderSnap");
    }
  }

  function FindBehind(head: seq<Pair>, v: string, key: string): Option<string> {
    if Find(head, key) != None then Find(head, key)
    else if key == "coopOrderSnap" then Some(v)
    else if key == "coopOrderSuccessTime" then Some("")
    else None
  }

  lemma LookupBehind(head: seq<Pair>, v: string, key: string)
    ensures Find(InsertAll([], head + [Pair("coopOrderSnap", v), Pair("coopOrderSuccessTime", "")]), key)
            == FindBehind(head, v, key)
  {
    hide InsertAll;
    var tail := [Pair("coopOrderSnap", v), Pair("coopOrderSuccessTime", "")];
    FindInsertAll([], head + tail, key);
    FindSum(head, tail, key);
    assert tail[1..] == [Pair("coopOrderSuccessTime", "")] && tail[1..][1..] == [];
  }

  // ---------- the other fields ----------

  /** Fields without '&' bring no parameters of their own. */
  predicate FieldsStand(o: Order) {
    '&' !in o.coopId && '&' !in o.tbOrderNo && '&' !in o.coopOrderNo
  }

  lemma FourParts(a: string, b: string, c: string, d: string)
    ensures Pairs(a + "&" + b + "&" + c + "&" + d) == Pairs(a) + Pairs(b) + Pairs(c) + Pairs(d)
  {
    hide Pairs;
    PairsSplit(a, b);
    PairsSplit(a + "&" + b, c);
    PairsSplit(a + "&" + b + "&" + c, d);
  }

  lemma HeadText(k: string, v: string, l: string, w: string, m: string, x: string, n: string, y: string)
    ensures k + "=" + v + ("&" + l + "=") + w + ("&" + m + "=") + x + ("&" + n + "=") + y
            == (k + "=" + v) + "&" + (l + "=" + w) + "&" + (m + "=" + x) + "&" + (n + "=" + y)
  {
  }

  lemma HeadOfStatus(o: Order, result: string)
    requires FieldsStand(o) && '&' !in result
    ensures Pairs(Head(o, result)) ==
            [Pair("coopId", ValueOf(o.coopId)), Pair("tbOrderNo", ValueOf(o.tbOrderNo)),
             Pair("coopOrderNo", ValueOf(o.coopOrderNo)), Pair("coopOrderStatus", ValueOf(result))]
  {
    hide Pairs, ValueOf;
    HeadText("coopId", o.coopId, "tbOrderNo", o.tbOrderNo, "coopOrderNo", o.coopOrderNo, "coopOrderStatus", result);
    HeadLiterals();
    OnePair("coopId", o.coopId);
    OnePair("tbOrderNo", o.tbOrderNo);
    OnePair("coopOrderNo", o.coopOrderNo);
    OnePair("coopOrderStatus", result);
    FourParts("coopId" + "=" + o.coopId, "tbOrderNo" + "=" + o.tbOrderNo,
              "coopOrderNo" + "=" + o.coopOrderNo, "coopOrderStatus" + "=" + result);
  }

  lemma HeadLiterals()
    ensures "coopId" + "=" == "coopId=" && "&" + "tbOrderNo" + "=" == "&tbOrderNo="
    ensures "&" + "coopOrderNo" + "=" == "&coopOrderNo=" && "&" + "coopOrderStatus" + "=" == "&coopOrderStatus="
  {
  }

  lemma HeadOfFour(o: Order)
    requires FieldsStand(o)
    ensures HeadPairs(o) == [Pair("coopId", ValueOf(o.coopId)), Pair("tbOrderNo", ValueOf(o.tbOrderNo)),
                             Pair("coopOrderNo", ValueOf(o.coopOrderNo)), Pair("coopOrderStatus", ValueOf("SUCCESS"))]
  {
    hide Pairs, ValueOf, Head;
    HeadOfStatus(o, "SUCCESS");
  }

  lemma FindNoneOfFour(ps: seq<Pair>, key: string)
    requires |ps| == 4 && forall i :: 0 <= i < 4 ==> ps[i].key != key
    ensures Find(ps, key) == None
  {
    assert ps[1..][1..] == ps[2..] && ps[2..][1..] == ps[3..] && ps[3..][1..] == [];
    assert Find(ps[3..], key) == None && Find(ps[2..], key) == None && Find(ps[1..], key) == None;
  }
}
