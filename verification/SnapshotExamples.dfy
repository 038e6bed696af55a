/**
  Snapshots beyond the clean and fitting ones that a receiver accepts: each part of the condition in
  Snapshot.SameTextExactly is needed.
 */
module SnapshotExamples {
  import opened CText
  import opened UrlCodec
  import opened Form
  import opened Signature
  import opened Orders
  import opened CallbackText
  import opened Snapshot

  predicate Safe(s: string) {
    forall i :: 0 <= i < |s| ==> IsSafe(s[i])
  }

  lemma {:induction false} SafeEncodes(s: string)
    requires Safe(s)
    ensures Encode(s) == s
  {
    if s != [] {
      assert IsSafe(s[0]);
      assert Safe(s[1..]);
      SafeEncodes(s[1..]);
    }
  }

  lemma {:induction false} EncodeOfSum(a: string, b: string)
    ensures Encode(a + b) == Encode(a) + Encode(b)
  {
    if a == [] {
      assert a + b == b;
    } else {
      assert (a + b)[0] == a[0] && (a + b)[1..] == a[1..] + b;
      EncodeOfSum(a[1..], b);
      Assoc(EncodeChar(a[0]), Encode(a[1..]), Encode(b));
    }
  }

  /** Filling stops in front of a character whose escape does not fit. */
  lemma {:induction false} StopsBefore(p: string, tail: string, room: nat)
    requires |Encode(p)| < room <= |Encode(p)| + 3 && tail != [] && |EncodeChar(tail[0])| == 3
    ensures Fitting(p + tail, room) == p && EncodeInto(p + tail, room).outcome == Refused
  {
    hide EncodeChar;
    if p == [] {
      assert p + tail == tail;
    } else {
      assert (p + tail)[0] == p[0] && (p + tail)[1..] == p[1..] + tail;
      assert |Encode(p)| == |EncodeChar(p[0])| + |Encode(p[1..])|;
      StopsBefore(p[1..], tail, room - |EncodeChar(p[0])|);
      assert p == [p[0]] + p[1..];
    }
  }

  lemma SafeIsPlain(s: string)
    requires Safe(s)
    ensures NUL !in s && '&' !in s && '%' !in s && '+' !in s && IsBytes(s)
  {
  }

  // ---------- a rest that adds nothing ----------

  /** A snapshot of safe characters that fill snap_encode, with a '%' that falls off it behind them. */
  lemma DroppedPercentPasses(o: Order, s: string, privateKey: string, md5: Digest)
    requires FieldsStand(o) && privateKey != ""
    requires Safe(s) && 253 <= |s| <= 255 && o.tbOrderSnap == s + "%"
    ensures SnapAllowed(o) && Receives(SuccessPost(o, privateKey, md5), privateKey, md5) && !Clean(o.tbOrderSnap)
  {
    hide Receives, SuccessPost, IsSafe, HeadPairs, Pairs, Decode, Fitting, EncodeInto, Encode;
    hide IndexOf, ValueOf, FieldsStand;
    SafeEncodes(s);
    SafeIsPlain(s);
    EscapesAreLong();
    StopsBefore(s, "%", SNAP_SIZE);
    HalfEscapeVanishes(s);
    IndexOfFinds(s + "%", '&');
    var snap := s + "%";
    assert snap[..|snap|] == snap && snap[|s|] == '%';
    SilentNothing(HeadPairs(o), Snap(Kept(o)), Time());
    SnapshotDecides(o, privateKey, md5);
  }

  lemma HalfEscapeVanishes(s: string)
    requires Safe(s)
    ensures ValueOf(s + "%") == s
  {
    SafeEncodes(s);
    SafeIsPlain(s);
    DecodeUndoesEncode(s, ['%', NUL]);
    assert s + "%" + [NUL] == s + ['%', NUL];
    LoneEscapeDecodes();
    assert s + [NUL] == s + [NUL] + "";
    CStrTerminated(s, "");
  }

  lemma LoneEscapeDecodes()
    ensures Decode(['%', NUL]) == [NUL]
  {
    var t := ['%', NUL];
    assert t[1..] == [NUL] && Writes(t) == "" && Reads(t) == 1;
    OneDecodes(NUL);
    assert Decode(t) == "" + Decode([NUL]);
  }

  lemma EscapesAreLong()
    ensures |EncodeChar('%')| == 3 && |EncodeChar('&')| == 3
  {
  }

  /** The same with an '&' and a text without '=' behind them. */
  lemma DroppedAmpPasses(o: Order, s: string, privateKey: string, md5: Digest)
    requires FieldsStand(o) && privateKey != ""
    requires Safe(s) && 253 <= |s| <= 255 && o.tbOrderSnap == s + "&x"
    ensures SnapAllowed(o) && Receives(SuccessPost(o, privateKey, md5), privateKey, md5) && !Clean(o.tbOrderSnap)
  {
    hide Receives, SuccessPost, IsSafe, HeadPairs, Decode, Pairs, Fitting, EncodeInto, Encode, ValueOf, FieldsStand;
    SafeEncodes(s);
    SafeIsPlain(s);
    EscapesAreLong();
    StopsBefore(s, "&x", SNAP_SIZE);
    var snap := s + "&x";
    assert snap[..|s|] == s && snap[|s|] == '&' && snap[|s| + 1..] == "x";
    IndexOfUnique(snap, '&', |s|);
    ValueOfPlain(s);
    NoPairs();
    SilentNothing(HeadPairs(o), Snap(Kept(o)), Time());
    SnapshotDecides(o, privateKey, md5);
  }

  lemma NoPairs()
    ensures Pairs("x") == []
  {
    SingleSegment("x");
    IndexOfUnique("x", '=', 1);
  }

  // ---------- the signed text written out ----------

  /** What stands in front of the snapshot value in the signed text, and what stands behind it. */
  function InFront(o: Order): string {
    "coopId" + ValueOf(o.coopId) + "coopOrderNo" + ValueOf(o.coopOrderNo) + "coopOrderSnap"
  }

  function Behind(o: Order): string {
    "coopOrderStatus" + ValueOf("SUCCESS") + "coopOrderSuccessTime" + "" + "tbOrderNo" + ValueOf(o.tbOrderNo)
  }

  /** The map in key order. */
  function InOrder(o: Order, v: string): seq<Pair> {
    [Pair("coopId", ValueOf(o.coopId)), Pair("coopOrderNo", ValueOf(o.coopOrderNo)), Snap(v),
     Pair("coopOrderStatus", ValueOf("SUCCESS")), Time(), Pair("tbOrderNo", ValueOf(o.tbOrderNo))]
  }

  lemma {:induction false} BeforeBehind(p: string, x: string, y: string)
    requires Before(x, y)
    ensures Before(p + x, p + y)
  {
    if p == [] {
      assert p + x == x && p + y == y;
    } else {
      BeforeBehind(p[1..], x, y);
      assert (p + x)[1..] == p[1..] + x && (p + y)[1..] == p[1..] + y;
    }
  }

  lemma IdBeforeNo()
    ensures Before("coopId", "coopOrderNo")
  {
    BeforeBehind("coop", "Id", "OrderNo");
    assert "coop" + "Id" == "coopId";
    assert "coop" + "OrderNo" == "coopOrderNo";
  }

  lemma NoBeforeSnap()
    ensures Before("coopOrderNo", "coopOrderSnap")
  {
    BeforeBehind("coopOrder", "No", "Snap");
    assert "coopOrder" + "No" == "coopOrderNo";
    assert "coopOrder" + "Snap" == "coopOrderSnap";
  }

  lemma SnapBeforeStatus()
    ensures Before("coopOrderSnap", "coopOrderStatus")
  {
    BeforeBehind("coopOrderS", "nap", "tatus");
    assert "coopOrderS" + "nap" == "coopOrderSnap";
    assert "coopOrderS" + "tatus" == "coopOrderStatus";
  }

  lemma StatusBeforeTime()
    ensures Before("coopOrderStatus", "coopOrderSuccessTime")
  {
    BeforeBehind("coopOrderS", "tatus", "uccessTime");
    assert "coopOrderS" + "tatus" == "coopOrderStatus";
    assert "coopOrderS" + "uccessTime" == "coopOrderSuccessTime";
  }

  lemma SixSorted(es: seq<Pair>)
    requires |es| == 6 && forall i :: 0 <= i < 5 ==> Before(es[i].key, es[i + 1].key)
    ensures Sorted(es)
  {
    hide Before;
    assert Sorted(es[5..]);
    assert es[4..][1..] == es[5..] && es[4..][0] == es[4] && es[4..][1] == es[5];
    assert Sorted(es[4..]);
    assert es[3..][1..] == es[4..] && es[3..][0] == es[3] && es[3..][1] == es[4];
    assert Sorted(es[3..]);
    assert es[2..][1..] == es[3..] && es[2..][0] == es[2] && es[2..][1] == es[3];
    assert Sorted(es[2..]);
    assert es[1..][1..] == es[2..] && es[1..][0] == es[1] && es[1..][1] == es[2];
  }

  lemma {:induction false} FindCons(p: Pair, ps: seq<Pair>, key: string)
    ensures Find([p] + ps, key) == if p.key == key then Some(p.value) else Find(ps, key)
  {
    assert ([p] + ps)[1..] == ps;
  }

  lemma FindSix(a: Pair, b: Pair, c: Pair, d: Pair, e: Pair, f: Pair, key: string)
    ensures Find([a, b, c, d, e, f], key) ==
            if a.key == key then Some(a.value) else if b.key == key then Some(b.value)
            else if c.key == key then Some(c.value) else if d.key == key then Some(d.value)
            else if e.key == key then Some(e.value) else if f.key == key then Some(f.value) else None
  {
    hide Find;
    assert [a, b, c, d, e, f] == [a] + [b, c, d, e, f];
    FindCons(a, [b, c, d, e, f], key);
    assert [b, c, d, e, f] == [b] + [c, d, e, f];
    FindCons(b, [c, d, e, f], key);
    FindFour(c, d, e, f, key);
  }

  lemma FindFour(a: Pair, b: Pair, c: Pair, d: Pair, key: string)
    ensures Find([a, b, c, d], key) ==
            if a.key == key then Some(a.value) else if b.key == key then Some(b.value)
            else if c.key == key then Some(c.value) else if d.key == key then Some(d.value) else None
  {
    hide Find;
    assert [a, b, c, d] == [a] + [b, c, d];
    FindCons(a, [b, c, d], key);
    assert [b, c, d] == [b] + [c, d];
    FindCons(b, [c, d], key);
    assert [c, d] == [c] + [d];
    FindCons(c, [d], key);
    FindOne(d, key);
  }

  /** Six pairs inserted out of order, with keys of different lengths. */
  lemma SixInserted(a: Pair, b: Pair, c: Pair, d: Pair, e: Pair, f: Pair)
    requires |a.key| == 6 && |b.key| == 11 && |c.key| == 13 && |d.key| == 15 && |e.key| == 20 && |f.key| == 9
    requires Before(a.key, b.key) && Before(b.key, c.key) && Before(c.key, d.key)
    requires Before(d.key, e.key) && Before(e.key, f.key)
    ensures InsertAll([], With([a, f, b, d], c, [], e)) == [a, b, c, d, e, f]
  {
    hide Sorted, InsertAll, Find, Before, With;
    var h, es := [a, f, b, d], [a, b, c, d, e, f];
    SixSorted(es);
    SortedEmpty();
    FilledIsSorted([], With(h, c, [], e));
    forall key ensures Find(InsertAll([], With(h, c, [], e)), key) == Find(es, key) {
      FindWith(h, c, [], e, key);
      NothingFound(key);
      FindFour(a, f, b, d, key);
      FindSix(a, b, c, d, e, f, key);
    }
    SortedIsDetermined(InsertAll([], With(h, c, [], e)), es);
  }

  /** The map the receiver and the signer sort, for fields that stand. */
  lemma ShortInOrder(o: Order, v: string)
    requires FieldsStand(o)
    ensures InsertAll([], With(HeadPairs(o), Snap(v), [], Time())) == InOrder(o, v)
  {
    hide ValueOf, HeadPairs, Before, InsertAll, With;
    HeadOfFour(o);
    IdBeforeNo();
    NoBeforeSnap();
    SnapBeforeStatus();
    StatusBeforeTime();
    TimeBeforeNumber();
    SixInserted(Pair("coopId", ValueOf(o.coopId)), Pair("coopOrderNo", ValueOf(o.coopOrderNo)), Snap(v),
                Pair("coopOrderStatus", ValueOf("SUCCESS")), Time(), Pair("tbOrderNo", ValueOf(o.tbOrderNo)));
  }

  lemma TimeBeforeNumber()
    ensures Before("coopOrderSuccessTime", "tbOrderNo")
  {
  }

  lemma SignTextOfCons(p: Pair, ps: seq<Pair>)
    requires |p.key| != 4
    ensures SignText([p] + ps) == p.key + p.value + SignText(ps)
  {
    assert ([p] + ps)[1..] == ps;
    assert |"sign"| == 4;
  }

  lemma SignTextOfSix(a: Pair, b: Pair, c: Pair, d: Pair, e: Pair, f: Pair)
    requires |a.key| != 4 && |b.key| != 4 && |c.key| != 4 && |d.key| != 4 && |e.key| != 4 && |f.key| != 4
    ensures SignText([a, b, c, d, e, f])
            == (a.key + a.value + b.key + b.value + c.key) + c.value
               + (d.key + d.value + e.key + e.value + f.key + f.value)
  {
    hide SignText;
    assert [a, b, c, d, e, f] == [a] + [b, c, d, e, f];
    SignTextOfCons(a, [b, c, d, e, f]);
    assert [b, c, d, e, f] == [b] + [c, d, e, f];
    SignTextOfCons(b, [c, d, e, f]);
    assert [c, d, e, f] == [c] + [d, e, f];
    SignTextOfCons(c, [d, e, f]);
    SignTextOfThree(d, e, f);
  }

  lemma SignTextOfThree(d: Pair, e: Pair, f: Pair)
    requires |d.key| != 4 && |e.key| != 4 && |f.key| != 4
    ensures SignText([d, e, f]) == d.key + d.value + e.key + e.value + f.key + f.value
  {
    hide SignText;
    assert [d, e, f] == [d] + [e, f];
    SignTextOfCons(d, [e, f]);
    assert [e, f] == [e] + [f];
    SignTextOfCons(e, [f]);
    assert [f] == [f] + [];
    SignTextOfCons(f, []);
    assert SignText([]) == "" by { SignTextOfNone(); }
  }

  lemma SignTextOfNone()
    ensures SignText([]) == ""
  {
  }

  /** For fields without '&' the posted text is what is in front, the part kept of the snapshot, and what is behind. */
  lemma PostedWrittenOut(o: Order, v: string)
    requires FieldsStand(o)
    ensures SignText(InsertAll([], With(HeadPairs(o), Snap(v), [], Time()))) == InFront(o) + v + Behind(o)
  {
    hide SignText, InsertAll, ValueOf, With, HeadPairs;
    ShortInOrder(o, v);
    assert |"coopId"| == 6 && |"tbOrderNo"| == 9 && |"coopOrderNo"| == 11 && |"coopOrderStatus"| == 15;
    assert |Snap(v).key| == 13 && |Time().key| == 20;
    SignTextOfSix(Pair("coopId", ValueOf(o.coopId)), Pair("coopOrderNo", ValueOf(o.coopOrderNo)), Snap(v),
                  Pair("coopOrderStatus", ValueOf("SUCCESS")), Time(), Pair("tbOrderNo", ValueOf(o.tbOrderNo)));
  }

  // ---------- a rest that adds something ----------

  /** A pair with the empty key is signed first of all. */
  lemma EmptyKeyFirst(head: seq<Pair>, snap: Pair, w: string, time: Pair)
    requires Find(head, "") == None && snap.key != "" && time.key != ""
    ensures SignText(InsertAll([], With(head, snap, [Pair("", w)], time)))
            == w + SignText(InsertAll([], With(head, snap, [], time)))
  {
    hide InsertAll, SignText, With, Find;
    var p := Pair("", w);
    var x, y := InsertAll([], With(head, snap, [p], time)), InsertAll([], With(head, snap, [], time));
    SortedEmpty();
    FilledIsSorted([], With(head, snap, [p], time));
    FilledIsSorted([], With(head, snap, [], time));
    NothingFound("");
    FindWith(head, snap, [], time, "");
    SortedInFront(y, w);
    hide Sorted;
    forall key ensures Find(x, key) == Find([p] + y, key) {
      FindWith(head, snap, [p], time, key);
      FindWith(head, snap, [], time, key);
      FindOne(p, key);
      NothingFound(key);
      FindCons(p, y, key);
    }
    SortedIsDetermined(x, [p] + y);
    SignTextOfCons(p, y);
  }

  lemma SortedInFront(y: seq<Pair>, w: string)
    requires Sorted(y) && Find(y, "") == None
    ensures Sorted([Pair("", w)] + y)
  {
    assert ([Pair("", w)] + y)[1..] == y;
  }

  /** The texts can be the same although the rest of the snapshot adds a pair. */
  lemma LoudCanBeSame(o: Order, a: string, x: string)
    requires FieldsStand(o) && x == InFront(o) + a && Safe(x) && Safe(a)
    requires 253 <= |a| + 6 + |x| <= 255 && o.tbOrderSnap == a + "&=" + x + "%26="
    ensures SnapAllowed(o) && !RestSilent(o) && SameText(o)
  {
    hide Pairs, ValueOf, InsertAll, SignText, With, HeadPairs, Find, InFront, Behind, Kept, SnapAllowed, Rest, Front;
    hide Safe, FieldsStand, SignedText, PostedText;
    LoudIsKept(o, a, x);
    LoudPairs(o, a, x);
    LoudHead(o);
    LoudIsHeard(HeadPairs(o), Snap(Kept(o)), x + "&=", Time());
    TextsByPairs(o);
    EmptyKeyFirst(HeadPairs(o), Snap(a), x + "&=", Time());
    PostedWrittenOut(o, a);
    PostedWrittenOut(o, a + "&=" + x);
    TextsMeet(InFront(o), a, x, Behind(o));
  }

  lemma TextsMeet(f: string, a: string, x: string, b: string)
    requires x == f + a
    ensures x + "&=" + (f + a + b) == f + (a + "&=" + x) + b
  {
  }

  lemma LoudIsHeard(head: seq<Pair>, snap: Pair, w: string, time: Pair)
    requires Find(head, "") == None && snap.key != "" && w != ""
    ensures !Silent(head, snap, [Pair("", w)], time)
  {
    FindOne(Pair("", w), "");
    assert !Hushed(head, snap, [Pair("", w)], time, [Pair("", w)][0].key);
  }

  lemma LoudHead(o: Order)
    requires FieldsStand(o)
    ensures Find(HeadPairs(o), "") == None
  {
    hide ValueOf, Pairs, HeadPairs;
    HeadOfFour(o);
    FindNoneOfFour(HeadPairs(o), "");
  }

  lemma LoudIsKept(o: Order, a: string, x: string)
    requires Safe(x) && Safe(a) && 253 <= |a| + 6 + |x| <= 255 && o.tbOrderSnap == a + "&=" + x + "%26="
    ensures SnapAllowed(o) && Kept(o) == a + "&=" + x
  {
    hide Encode, EncodeChar, IsSafe, Safe, Fitting, EncodeInto;
    SafeEncodes(a);
    SafeEncodes(x);
    SafeIsPlain(a);
    SafeIsPlain(x);
    EncodeOfSum(a + "&=", x);
    EncodeOfSum(a, "&=");
    AmpEncodes();
    EscapesAreLong();
    assert |Encode(a + "&=" + x)| == |a| + 6 + |x|;
    StopsBefore(a + "&=" + x, "%26=", SNAP_SIZE);
  }

  lemma AmpEncodes()
    ensures |Encode("&=")| == 6
  {
    assert "&="[1..] == "=" && "="[1..] == "";
    assert Encode("=") == EncodeChar('=') + Encode("");
  }

  lemma LoudPairs(o: Order, a: string, x: string)
    requires Safe(x) && Safe(a) && o.tbOrderSnap == a + "&=" + x + "%26="
    ensures ValueOf(Front(o.tbOrderSnap)) == a && Rest(o.tbOrderSnap) == [Pair("", x + "&=")]
  {
    hide Decode, Encode, IsSafe, Pairs, CStr;
    SafeIsPlain(a);
    SafeIsPlain(x);
    var snap, text := o.tbOrderSnap, x + "%26=";
    assert snap[..|a|] == a && snap[|a|] == '&' && snap[|a| + 1..] == "=" + text;
    IndexOfUnique(snap, '&', |a|);
    ValueOfPlain(a);
    OnePair("", text);
    assert "" + "=" + text == "=" + text;
    SafeEncodes(x);
    DecodeUndoesEncode(x, "%26=" + [NUL]);
    assert text + [NUL] == x + ("%26=" + [NUL]);
    AmpDecodes();
    assert x + ("&=" + [NUL]) == (x + "&=") + [NUL] + "";
    CStrTerminated(x + "&=", "");
  }

  lemma AmpDecodes()
    ensures Decode("%26=" + [NUL]) == "&=" + [NUL]
  {
    var t := "%26=" + [NUL];
    assert Hex2Num('2') == 2 && Hex2Num('6') == 6;
    assert Writes(t) == [Combine(2, 6)] && Combine(2, 6) == '&' && Reads(t) == 3;
    assert t[3..] == ['=', NUL] && ['=', NUL][1..] == [NUL];
    OneDecodes(NUL);
    assert Decode(['=', NUL]) == ['='] + Decode([NUL]);
    assert Decode(t) == ['&'] + Decode(['=', NUL]);
    assert "&=" + [NUL] == ['&'] + (['='] + [NUL]);
  }

  /** So there are orders for which a receiver accepts such a callback. */
  lemma LoudPasses(privateKey: string, md5: Digest) returns (o: Order)
    requires privateKey != ""
    ensures FieldsStand(o) && SnapAllowed(o) && !RestSilent(o)
    ensures Receives(SuccessPost(o, privateKey, md5), privateKey, md5)
  {
    hide Receives, SuccessPost, ValueOf, Pairs, HeadPairs, SameText, SnapAllowed, RestSilent, InFront, Safe;
    var a := seq(108, _ => 'a');
    var front := "coopIdc" + "coopOrderNon" + "coopOrderSnap";
    o := Order("c", "t", "n", a + "&=" + (front + a) + "%26=", "u", "tmall", "", []);
    FrontWrittenOut(o, front);
    FrontIsSafe(front, a);
    LoudCanBeSame(o, a, front + a);
    HeadOfFour(o);
    FindNoneOfFour(HeadPairs(o), "sign");
    AcceptedIfSame(o, privateKey, md5);
  }

  lemma FrontWrittenOut(o: Order, front: string)
    requires o.coopId == "c" && o.coopOrderNo == "n" && front == "coopIdc" + "coopOrderNon" + "coopOrderSnap"
    ensures InFront(o) == front
  {
    hide ValueOf;
    ValueOfPlain("c");
    ValueOfPlain("n");
    assert "coopId" + "c" == "coopIdc";
    assert "coopOrderNo" + "n" == "coopOrderNon";
  }

  lemma FrontIsSafe(front: string, a: string)
    requires front == "coopIdc" + "coopOrderNon" + "coopOrderSnap" && forall i :: 0 <= i < |a| ==> a[i] == 'a'
    ensures |front| == 32 && Safe(a) && Safe(front + a)
  {
    assert Safe("coopIdc") && Safe("coopOrderNon") && Safe("coopOrderSnap");
  }
}
