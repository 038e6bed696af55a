/**
  When the text TmallNotify signs for a SUCCESS callback and the text a receiver computes from the
  post are the same. The snapshot is signed raw: its '&' starts pairs of its own, and the rest of it is
  decoded. It is posted encoded, as far as snap_encode has room.
 */
module Snapshot {
  import opened CText
  import opened UrlCodec
  import opened Form
  import opened Signature
  import opened Orders
  import opened CallbackText

  // ---------- what a text adds to the signed text ----------

  function Weight(ps: seq<Pair>): nat {
    if ps == [] then 0 else |ps[0].key| + |ps[0].value| + Weight(ps[1..])
  }

  /** Inserting a pair adds its key and its value to the signed text, or nothing. */
  lemma {:induction false} LengthOfInserted(es: seq<Pair>, p: Pair)
    requires Sorted(es)
    ensures |SignText(Inserted(es, p))| ==
            |SignText(es)| + if Find(es, p.key) == None && p.key != "sign" then |p.key| + |p.value| else 0
  {
    if es == [] {
      assert SignText([p]) == Part(p) + SignText([]);
    } else if es[0].key == p.key {
    } else if Before(p.key, es[0].key) {
      AbsentBefore(es, p.key);
      assert ([p] + es)[1..] == es;
    } else {
      LengthOfInserted(es[1..], p);
      assert Inserted(es, p)[1..] == Inserted(es[1..], p);
    }
  }

  lemma {:induction false} LengthOfAll(es: seq<Pair>, ps: seq<Pair>)
    requires Sorted(es)
    ensures |SignText(InsertAll(es, ps))| <= |SignText(es)| + Weight(ps)
    decreases ps
  {
    if ps != [] {
      LengthOfInserted(es, ps[0]);
      InsertedIsSorted(es, ps[0]);
      LengthOfAll(Inserted(es, ps[0]), ps[1..]);
    }
  }

  /** The pairs of a text weigh no more than the text. */
  lemma {:induction false} PairsWeigh(q: string)
    ensures Weight(Pairs(q)) <= |q|
    decreases |q|
  {
    var i := IndexOf(q, '&');
    SegmentWeighs(q[..i]);
    if i == |q| {
      assert q[..i] == q;
    } else {
      CutHere(q, q[..i], q[i + 1..]);
      PairsOfSum([q[..i]], Segments(q[i + 1..]));
      WeightOfSum(PairsOf([q[..i]]), Pairs(q[i + 1..]));
      PairsWeigh(q[i + 1..]);
    }
  }

  lemma {:induction false} WeightOfSum(x: seq<Pair>, y: seq<Pair>)
    ensures Weight(x + y) == Weight(x) + Weight(y)
  {
    if x == [] {
      assert x + y == y;
    } else {
      assert (x + y)[1..] == x[1..] + y;
      WeightOfSum(x[1..], y);
    }
  }

  lemma ValueWeighs(text: string)
    ensures |ValueOf(text)| <= |text|
  {
    DecodeFixesExactly(text + [NUL]);
    if |CStr(Decode(text + [NUL]))| == |text| + 1 {
      assert |Decode(text + [NUL])| == |text| + 1;
      LastIsNul(text);
    }
  }

  /** A decoder that loses nothing copies the terminator last. */
  lemma {:induction false} LastIsNul(text: string)
    requires |Decode(text + [NUL])| == |text| + 1
    ensures Decode(text + [NUL])[|text|] == NUL
  {
    var t := text + [NUL];
    if text != [] {
      DecodeFixesExactly(t[Reads(t)..]);
      assert t[1..] == text[1..] + [NUL];
      LastIsNul(text[1..]);
    }
  }

  lemma SegmentWeighs(segment: string)
    ensures Weight(PairsOf([segment])) <= |segment|
  {
    assert PairsOf([segment][1..]) == [];
    match PairOf(segment)
    case Some(p) =>
      ValueWeighs(segment[IndexOf(segment, '=') + 1..]);
      assert PairsOf([segment]) == [p] && [p][1..] == [];
    case None =>
  }

  /** The value read from a text is the text itself exactly when it holds no '%' and no '+'. */
  lemma ValueFixesExactly(text: string)
    requires NUL !in text
    ensures ValueOf(text) == text <==> '%' !in text && '+' !in text
  {
    if '%' !in text && '+' !in text {
      ValueOfPlain(text);
    } else if ValueOf(text) == text {
      hide Decode, EndsInHalfEscape;
      TerminatorDecodes(text);
      DecodeFixesExactly(text);
      if !EndsInHalfEscape(text) {
        EqualPrefix(text, Decode(text), [NUL]);
      }
      assert false;
    }
  }

  /** A NUL-free prefix of a text and its terminator is a prefix of the text. */
  lemma EqualPrefix(s: string, d: string, end: string)
    requires end == [NUL] && NUL !in s && s <= d + end && |d| <= |s|
    ensures s == d
  {
    assert (d + end)[|d|] == NUL;
    assert forall i :: 0 <= i < |s| ==> s[i] == (d + end)[i] && s[i] in s;
  }

  // ---------- the pairs of the two texts ----------

  /** The raw snapshot up to its first '&', and the pairs of what is behind it. */
  function Front(snap: string): string {
    snap[..IndexOf(snap, '&')]
  }

  function Rest(snap: string): seq<Pair> {
    var i := IndexOf(snap, '&');
    if i < |snap| then Pairs(snap[i + 1..]) else []
  }

  /** The pairs of a text like the signed one: a snapshot value, other pairs behind it, and the time. */
  function With(head: seq<Pair>, snap: Pair, rest: seq<Pair>, time: Pair): seq<Pair> {
    head + ([snap] + (rest + [time]))
  }

  function Snap(v: string): Pair {
    Pair("coopOrderSnap", v)
  }

  function Time(): Pair {
    Pair("coopOrderSuccessTime", "")
  }

  lemma {:induction false} IndexOfFinds(s: string, c: char)
    ensures c in s <==> IndexOf(s, c) < |s|
  {
    if s != [] && s[0] != c {
      IndexOfFinds(s[1..], c);
    }
  }

  lemma SignedPairs(o: Order)
    ensures Pairs(SuccessText(o, o.tbOrderSnap))
            == With(HeadPairs(o), Snap(ValueOf(Front(o.tbOrderSnap))), Rest(o.tbOrderSnap), Time())
  {
    hide Pairs, ValueOf, IndexOf, SuccessText, HeadPairs;
    var snap := o.tbOrderSnap;
    var i := IndexOf(snap, '&');
    IndexOfFinds(snap, '&');
    if i < |snap| {
      assert snap == snap[..i] + "&" + snap[i + 1..];
      CutSnapshotPairs(o, snap[..i], snap[i + 1..]);
    } else {
      assert Front(snap) == snap;
      SuccessPairs(o, snap);
      assert [Snap(ValueOf(snap))] + ([] + [Time()]) == [Snap(ValueOf(snap)), Time()];
    }
  }

  /** A snapshot with '&' is cut: its first part is the value, the rest becomes pairs of its own. */
  lemma CutSnapshotPairs(o: Order, a: string, b: string)
    requires '&' !in a
    ensures Pairs(SuccessText(o, a + "&" + b)) == With(HeadPairs(o), Snap(ValueOf(a)), Pairs(b), Time())
  {
    hide Pairs, ValueOf;
    var timeText := "coopOrderSuccessTime=";
    var rest := "coopOrderSnap" + "=" + (a + "&" + b) + "&" + timeText;
    assert rest == ("coopOrderSnap" + "=" + a) + "&" + (b + "&" + timeText);
    PairsSplit(Head(o, "SUCCESS"), rest);
    PairsSplit("coopOrderSnap" + "=" + a, b + "&" + timeText);
    PairsSplit(b, timeText);
    OnePair("coopOrderSnap", a);
    TimePair();
  }

  lemma PostedPairs(o: Order)
    requires SnapAllowed(o)
    ensures Pairs(SuccessText(o, EncodedSnap(o))) == With(HeadPairs(o), Snap(Kept(o)), [], Time())
  {
    hide Pairs, ValueOf, Kept, EncodedSnap, SuccessText, HeadPairs;
    KeptIsPosted(o);
    SuccessPairs(o, EncodedSnap(o));
    assert [Snap(Kept(o))] + ([] + [Time()]) == [Snap(Kept(o)), Time()];
  }

  // ---------- pairs that add nothing ----------

  /** A pair with this key adds nothing: it is signed already, never signed, or as empty as the time. */
  predicate Hushed(head: seq<Pair>, snap: Pair, rest: seq<Pair>, time: Pair, key: string) {
    || key == "sign" || key == snap.key || Find(head, key) != None
    || ((key == "" || key == time.key) && Find(rest, key) == Some(""))
  }

  predicate Silent(head: seq<Pair>, snap: Pair, rest: seq<Pair>, time: Pair) {
    forall i :: 0 <= i < |rest| ==> Hushed(head, snap, rest, time, rest[i].key)
  }

  lemma FindWith(head: seq<Pair>, snap: Pair, rest: seq<Pair>, time: Pair, key: string)
    ensures Find(With(head, snap, rest, time), key) ==
            if Find(head, key) != None then Find(head, key)
            else if key == snap.key then Some(snap.value)
            else if Find(rest, key) != None then Find(rest, key)
            else if key == time.key then Some(time.value)
            else None
    ensures Find(InsertAll([], With(head, snap, rest, time)), key) == Find(With(head, snap, rest, time), key)
  {
    hide InsertAll;
    FindInsertAll([], With(head, snap, rest, time), key);
    FindSum(head, [snap] + (rest + [time]), key);
    FindSum([snap], rest + [time], key);
    FindSum(rest, [time], key);
    assert [snap][1..] == [] && [time][1..] == [];
  }

  /** An entry with nothing in it, wherever it is inserted, leaves the signed text. */
  lemma {:induction false} EmptyAddsNothing(es: seq<Pair>)
    ensures SignText(Inserted(es, Pair("", ""))) == SignText(es)
  {
    var p := Pair("", "");
    if es == [] {
      assert [p][1..] == [];
    } else if es[0].key == "" {
    } else {
      assert ([p] + es)[1..] == es;
    }
  }

  lemma SilentSigns(head: seq<Pair>, snap: Pair, rest: seq<Pair>, time: Pair)
    requires Silent(head, snap, rest, time) && time.value == ""
    ensures SignText(InsertAll([], With(head, snap, rest, time))) == SignText(InsertAll([], With(head, snap, [], time)))
  {
    hide InsertAll, SignText, Sorted, With, Find;
    var x, y, e := InsertAll([], With(head, snap, rest, time)), InsertAll([], With(head, snap, [], time)), Pair("", "");
    SortedEmpty();
    FilledIsSorted([], With(head, snap, rest, time));
    FilledIsSorted([], With(head, snap, [], time));
    forall key | key != "sign" ensures Find(Inserted(x, e), key) == Find(Inserted(y, e), key) {
      FindInserted(x, e, key);
      FindInserted(y, e, key);
      FindWith(head, snap, rest, time, key);
      FindWith(head, snap, [], time, key);
      NothingFound(key);
      SilentRest(head, snap, rest, time, key);
    }
    InsertedIsSorted(x, e);
    InsertedIsSorted(y, e);
    SignTextIgnoresSign(Inserted(x, e), Inserted(y, e));
    EmptyAddsNothing(x);
    EmptyAddsNothing(y);
  }

  lemma NothingFound(key: string)
    ensures Find([], key) == None
  {
  }

  lemma SilentRest(head: seq<Pair>, snap: Pair, rest: seq<Pair>, time: Pair, key: string)
    requires Silent(head, snap, rest, time)
    ensures Find(rest, key) != None ==> Hushed(head, snap, rest, time, key)
  {
    FindIsMember(rest, key);
    if Find(rest, key) != None {
      var i :| 0 <= i < |rest| && rest[i] == Pair(key, Find(rest, key).value);
    }
  }

  // ---------- pairs that add something ----------

  lemma InsertOne(es: seq<Pair>, p: Pair)
    ensures InsertAll(es, [p]) == Inserted(es, p)
  {
    assert [p][1..] == [];
  }

  lemma {:induction false} TextGrows(es: seq<Pair>, ps: seq<Pair>)
    requires Sorted(es)
    ensures |SignText(InsertAll(es, ps))| >= |SignText(es)|
    decreases ps
  {
    if ps != [] {
      LengthOfInserted(es, ps[0]);
      InsertedIsSorted(es, ps[0]);
      TextGrows(Inserted(es, ps[0]), ps[1..]);
    }
  }

  /** The map of the head and the snapshot. */
  function Basis(head: seq<Pair>, snap: Pair): seq<Pair> {
    Inserted(InsertAll([], head), snap)
  }

  lemma BasisFacts(head: seq<Pair>, snap: Pair, rest: seq<Pair>, time: Pair)
    requires Find(head, snap.key) == None && snap.key != "sign"
    ensures Sorted(InsertAll([], head)) && Sorted(Basis(head, snap))
    ensures |SignText(Basis(head, snap))| == |SignText(InsertAll([], head))| + |snap.key| + |snap.value|
    ensures forall key :: Find(Basis(head, snap), key) == if key == snap.key then Some(snap.value) else Find(head, key)
    ensures InsertAll([], With(head, snap, rest, time)) == Inserted(InsertAll(Basis(head, snap), rest), time)
  {
    hide InsertAll, SignText, Sorted, Find;
    var he := InsertAll([], head);
    SortedEmpty();
    FilledIsSorted([], head);
    InsertedIsSorted(he, snap);
    FindInsertAll([], head, snap.key);
    NothingFound(snap.key);
    LengthOfInserted(he, snap);
    forall key ensures Find(Basis(head, snap), key) == if key == snap.key then Some(snap.value) else Find(head, key) {
      FindInserted(he, snap, key);
      FindInsertAll([], head, key);
      NothingFound(key);
    }
    InsertAllSum([], head, [snap] + (rest + [time]));
    InsertAllSum(he, [snap], rest + [time]);
    InsertOne(he, snap);
    InsertAllSum(Basis(head, snap), rest, [time]);
    InsertOne(InsertAll(Basis(head, snap), rest), time);
  }

  /** What the time adds to a head and a snapshot. */
  function TimeLength(head: seq<Pair>, time: Pair): nat {
    if Find(head, time.key) == None then |time.key| else 0
  }

  predicate Apart(snap: Pair, time: Pair) {
    snap.key != time.key && snap.key != "sign" && time.key != "sign" && time.value == ""
  }

  lemma LengthOfShort(head: seq<Pair>, snap: Pair, time: Pair)
    requires Find(head, snap.key) == None && Apart(snap, time)
    ensures |SignText(InsertAll([], With(head, snap, [], time)))|
            == |SignText(InsertAll([], head))| + |snap.key| + |snap.value| + TimeLength(head, time)
  {
    hide InsertAll, SignText, Sorted, Find, With, Basis;
    BasisFacts(head, snap, [], time);
    NothingInserted(Basis(head, snap));
    LengthOfInserted(Basis(head, snap), time);
  }

  lemma LengthOfLong(head: seq<Pair>, snap: Pair, rest: seq<Pair>, time: Pair)
    requires Find(head, snap.key) == None && Apart(snap, time)
    ensures |SignText(InsertAll([], With(head, snap, rest, time)))|
            <= |SignText(InsertAll([], head))| + |snap.key| + |snap.value| + Weight(rest) + TimeLength(head, time)
  {
    hide InsertAll, SignText, Sorted, Find, With, Basis, Weight;
    BasisFacts(head, snap, rest, time);
    var b := Basis(head, snap);
    LengthOfAll(b, rest);
    FilledIsSorted(b, rest);
    FindInsertAll(b, rest, time.key);
    LengthOfInserted(InsertAll(b, rest), time);
  }

  /** A pair that is not hushed makes the signed text longer. */
  lemma LoudIsLonger(head: seq<Pair>, snap: Pair, rest: seq<Pair>, time: Pair)
    requires Find(head, snap.key) == None && Apart(snap, time) && !Silent(head, snap, rest, time)
    ensures |SignText(InsertAll([], With(head, snap, rest, time)))|
            > |SignText(InsertAll([], With(head, snap, [], time)))|
  {
    hide InsertAll, SignText, Sorted, Find, With, Basis;
    var i :| 0 <= i < |rest| && !Hushed(head, snap, rest, time, rest[i].key);
    var key := rest[i].key;
    FindIsMember(rest, key);
    assert rest[i] in rest;
    var loud := Pair(key, Find(rest, key).value);
    var when := Pair(time.key, if Find(rest, time.key) == None then "" else Find(rest, time.key).value);
    LongInAnotherOrder(head, snap, rest, time, loud, when);
    BasisFacts(head, snap, rest, time);
    var b := Basis(head, snap);
    LengthOfInserted(b, loud);
    InsertedIsSorted(b, loud);
    FindInserted(b, loud, time.key);
    LengthOfInserted(Inserted(b, loud), when);
    InsertedIsSorted(Inserted(b, loud), when);
    TextGrows(Inserted(Inserted(b, loud), when), rest + [time]);
    LengthOfShort(head, snap, time);
  }

  /** It does not matter when the first pairs of two keys are inserted. */
  lemma LongInAnotherOrder(head: seq<Pair>, snap: Pair, rest: seq<Pair>, time: Pair, loud: Pair, when: Pair)
    requires Find(head, snap.key) == None && Apart(snap, time)
    requires Find(head, loud.key) == None && loud.key != snap.key && Find(rest, loud.key) == Some(loud.value)
    requires when == Pair(time.key, if Find(rest, time.key) == None then "" else Find(rest, time.key).value)
    ensures InsertAll([], With(head, snap, rest, time))
            == InsertAll(Inserted(Inserted(Basis(head, snap), loud), when), rest + [time])
  {
    hide InsertAll, SignText, Sorted, With, Basis, Find;
    BasisFacts(head, snap, rest, time);
    var b := Basis(head, snap);
    var x, e := InsertAll([], With(head, snap, rest, time)), Inserted(Inserted(b, loud), when);
    var y := InsertAll(e, rest + [time]);
    SortedEmpty();
    FilledIsSorted([], With(head, snap, rest, time));
    InsertedIsSorted(b, loud);
    InsertedIsSorted(Inserted(b, loud), when);
    FilledIsSorted(e, rest + [time]);
    forall key ensures Find(x, key) == Find(y, key) {
      FindWith(head, snap, rest, time, key);
      FindInserted(b, loud, key);
      FindInserted(Inserted(b, loud), when, key);
      FindInsertAll(e, rest + [time], key);
      FindSum(rest, [time], key);
      FindOne(time, key);
    }
    SortedIsDetermined(x, y);
  }

  lemma FindOne(p: Pair, key: string)
    ensures Find([p], key) == if key == p.key then Some(p.value) else None
  {
    assert [p][1..] == [];
  }

  // ---------- counting '&' ----------

  function Amps(s: string): nat {
    if s == [] then 0 else (if s[0] == '&' then 1 else 0) + Amps(s[1..])
  }

  lemma {:induction false} AmpsOfSum(a: string, b: string)
    ensures Amps(a + b) == Amps(a) + Amps(b)
  {
    if a == [] {
      assert a + b == b;
    } else {
      assert (a + b)[1..] == a[1..] + b;
      AmpsOfSum(a[1..], b);
    }
  }

  lemma {:induction false} AmpsFound(s: string)
    ensures '&' in s <==> Amps(s) > 0
  {
    if s != [] {
      AmpsFound(s[1..]);
    }
  }

  /** A pair without '&' in its key and value. */
  predicate NoAmp(p: Pair) {
    '&' !in p.key && '&' !in p.value
  }

  lemma {:induction false} AmpsOfInserted(es: seq<Pair>, p: Pair)
    requires Sorted(es)
    ensures Amps(SignText(Inserted(es, p))) ==
            Amps(SignText(es)) + if Find(es, p.key) == None then Amps(Part(p)) else 0
  {
    if es == [] {
      AmpsOfSum(Part(p), "");
      assert SignText([p]) == Part(p) + SignText([p][1..]);
    } else if es[0].key == p.key {
    } else if Before(p.key, es[0].key) {
      AbsentBefore(es, p.key);
      assert ([p] + es)[1..] == es;
      AmpsOfSum(Part(p), SignText(es));
    } else {
      AmpsOfInserted(es[1..], p);
      AmpsOfSum(Part(es[0]), SignText(es[1..]));
      AmpsOfSum(Part(es[0]), SignText(Inserted(es[1..], p)));
      assert Inserted(es, p)[1..] == Inserted(es[1..], p);
    }
  }

  lemma PartWithoutAmp(p: Pair)
    requires NoAmp(p)
    ensures Amps(Part(p)) == 0
  {
    AmpsFound(Part(p));
  }

  lemma {:induction false} AmpsStay(es: seq<Pair>, ps: seq<Pair>)
    requires Sorted(es) && forall i :: 0 <= i < |ps| ==> NoAmp(ps[i])
    ensures Amps(SignText(InsertAll(es, ps))) == Amps(SignText(es))
    decreases ps
  {
    if ps != [] {
      PartWithoutAmp(ps[0]);
      AmpsOfInserted(es, ps[0]);
      InsertedIsSorted(es, ps[0]);
      AmpsStay(Inserted(es, ps[0]), ps[1..]);
    }
  }

  /** With one head, '&' in one snapshot value and nowhere in the other pairs tells two texts apart. */
  lemma AmpTells(head: seq<Pair>, v: string, w: string, rest: seq<Pair>)
    requires Find(head, "coopOrderSnap") == None
    requires '&' !in v && '&' in w && forall i :: 0 <= i < |rest| ==> NoAmp(rest[i])
    ensures SignText(InsertAll([], With(head, Snap(v), rest, Time())))
            != SignText(InsertAll([], With(head, Snap(w), [], Time())))
  {
    hide InsertAll, SignText, Sorted, Find, With, Amps;
    var he := InsertAll([], head);
    BasisFacts(head, Snap(v), rest, Time());
    BasisFacts(head, Snap(w), [], Time());
    FindInsertAll([], head, "coopOrderSnap");
    NothingFound("coopOrderSnap");
    AmpsOfInserted(he, Snap(v));
    AmpsOfInserted(he, Snap(w));
    PartWithoutAmp(Snap(v));
    AmpsFound(Part(Snap(w)));
    AmpIn("coopOrderSnap", w);
    AmpsStay(Basis(head, Snap(v)), rest);
    NothingInserted(Basis(head, Snap(w)));
    FilledIsSorted(Basis(head, Snap(v)), rest);
    PartWithoutAmp(Time());
    AmpsOfInserted(InsertAll(Basis(head, Snap(v)), rest), Time());
    AmpsOfInserted(Basis(head, Snap(w)), Time());
  }

  lemma AmpIn(a: string, b: string)
    requires '&' in b
    ensures '&' in a + b
  {
  }

  /** Without '%' no value has an '&' in it, and a value is as long as its text. */
  lemma PlainValue(text: string)
    requires '%' !in text && '&' !in text && NUL !in text
    ensures '&' !in ValueOf(text) && |ValueOf(text)| == |text|
  {
    hide Decode;
    var t := text + [NUL];
    PlainDecodes(t);
    var d := Decode(t);
    assert d[|text|] == NUL;
    forall i | 0 <= i < |text| ensures d[i] != '&' && d[i] != NUL {
      assert t[i] == text[i] && text[i] in text;
    }
    var v := d[..|text|];
    assert '&' !in v && NUL !in v;
    assert d == v + [NUL] + "";
    CStrTerminated(v, "");
    assert ValueOf(text) == v;
  }

  lemma {:induction false} PlainPairs(q: string)
    requires '%' !in q && NUL !in q
    ensures forall i :: 0 <= i < |Pairs(q)| ==> NoAmp(Pairs(q)[i])
    decreases |q|
  {
    hide ValueOf, IndexOf, PairsOf, NoAmp;
    var i := IndexOf(q, '&');
    PlainSegment(q[..i]);
    if i == |q| {
      assert q[..i] == q;
      SingleSegmentIs(q);
    } else {
      CutHere(q, q[..i], q[i + 1..]);
      PairsOfSum([q[..i]], Segments(q[i + 1..]));
      PlainPairs(q[i + 1..]);
      var x, y := PairsOf([q[..i]]), Pairs(q[i + 1..]);
      assert Pairs(q) == x + y;
      forall k | 0 <= k < |x + y| ensures NoAmp((x + y)[k]) {
        assert (x + y)[k] == if k < |x| then x[k] else y[k - |x|];
      }
    }
  }

  lemma SingleSegmentIs(q: string)
    requires IndexOf(q, '&') == |q|
    ensures Pairs(q) == PairsOf([q])
  {
  }

  lemma PlainSegment(segment: string)
    requires '%' !in segment && '&' !in segment && NUL !in segment
    ensures forall i :: 0 <= i < |PairsOf([segment])| ==> NoAmp(PairsOf([segment])[i])
  {
    assert PairsOf([segment][1..]) == [];
    if PairOf(segment) != None {
      PlainValue(segment[IndexOf(segment, '=') + 1..]);
    }
  }

  // ---------- when the two texts are the same ----------

  predicate SameText(o: Order) {
    SignedText(o) == PostedText(o)
  }

  /** What the receiver reads from the raw snapshot up to its '&' is what it gets of the encoded one. */
  predicate ReadsAlike(o: Order) {
    ValueOf(Front(o.tbOrderSnap)) == Kept(o)
  }

  /** What is behind the first '&' of the snapshot adds nothing to the signed text. */
  predicate RestSilent(o: Order) {
    Silent(HeadPairs(o), Snap(Kept(o)), Rest(o.tbOrderSnap), Time())
  }

  lemma SilentAnyValue(head: seq<Pair>, v: string, w: string, rest: seq<Pair>)
    requires Silent(head, Snap(v), rest, Time())
    ensures Silent(head, Snap(w), rest, Time())
  {
    forall i | 0 <= i < |rest| ensures Hushed(head, Snap(w), rest, Time(), rest[i].key) {
      assert Hushed(head, Snap(v), rest, Time(), rest[i].key);
    }
  }

  lemma KeysApart(v: string)
    ensures Apart(Snap(v), Time())
  {
    assert |"sign"| < |"coopOrderSnap"| < |"coopOrderSuccessTime"|;
  }

  /** The two texts by their pairs. */
  lemma TextsByPairs(o: Order)
    requires SnapAllowed(o)
    ensures SignedText(o) == SignText(InsertAll([],
              With(HeadPairs(o), Snap(ValueOf(Front(o.tbOrderSnap))), Rest(o.tbOrderSnap), Time())))
    ensures PostedText(o) == SignText(InsertAll([], With(HeadPairs(o), Snap(Kept(o)), [], Time())))
  {
    hide InsertAll, SignText, With, ValueOf, Pairs, Kept, Front, Rest, HeadPairs, SnapAllowed;
    SignedPairs(o);
    PostedPairs(o);
  }

  lemma ShortIsTwo(o: Order, v: string)
    ensures With(HeadPairs(o), Snap(v), [], Time())
            == HeadPairs(o) + [Pair("coopOrderSnap", v), Pair("coopOrderSuccessTime", "")]
  {
    hide HeadPairs;
    assert [Snap(v)] + ([] + [Time()]) == [Snap(v), Time()];
  }

  lemma SameWhenSilent(o: Order)
    requires SnapAllowed(o) && Find(HeadPairs(o), "coopOrderSnap") == None && RestSilent(o)
    ensures SameText(o) <==> ReadsAlike(o)
  {
    hide InsertAll, SignText, With, ValueOf, Pairs, Kept, Front, Rest, HeadPairs, SnapAllowed, Silent;
    hide Find, SignedText, PostedText;
    var v := ValueOf(Front(o.tbOrderSnap));
    TextsByPairs(o);
    SilentAnyValue(HeadPairs(o), Kept(o), v, Rest(o.tbOrderSnap));
    SilentSigns(HeadPairs(o), Snap(v), Rest(o.tbOrderSnap), Time());
    ShortIsTwo(o, v);
    ShortIsTwo(o, Kept(o));
    ValueShows(o, v, Kept(o));
  }

  /** A rest that is not silent makes up for a snapshot value shorter than what is kept, at best. */
  lemma LoudNeedsRoom(o: Order)
    requires SnapAllowed(o) && Find(HeadPairs(o), "coopOrderSnap") == None && !RestSilent(o) && SameText(o)
    ensures |ValueOf(Front(o.tbOrderSnap))| < |Kept(o)|
            <= |ValueOf(Front(o.tbOrderSnap))| + Weight(Rest(o.tbOrderSnap))
  {
    hide InsertAll, SignText, With, ValueOf, Pairs, Kept, Front, Rest, HeadPairs, SnapAllowed, Silent, Weight;
    hide Find, SignedText, PostedText;
    var head, v, rest := HeadPairs(o), ValueOf(Front(o.tbOrderSnap)), Rest(o.tbOrderSnap);
    TextsByPairs(o);
    if Silent(head, Snap(v), rest, Time()) {
      SilentAnyValue(head, v, Kept(o), rest);
    }
    KeysApart(v);
    KeysApart(Kept(o));
    LoudIsLonger(head, Snap(v), rest, Time());
    LengthOfShort(head, Snap(v), Time());
    LengthOfShort(head, Snap(Kept(o)), Time());
    LengthOfLong(head, Snap(v), rest, Time());
  }

  /** The value and the rest of a snapshot together weigh less than the snapshot, if it is cut at all. */
  lemma SnapshotWeighs(snap: string)
    ensures |ValueOf(Front(snap))| + Weight(Rest(snap)) + (if '&' in snap then 1 else 0) <= |snap|
  {
    hide ValueOf, Pairs, IndexOf, Weight;
    var i := IndexOf(snap, '&');
    IndexOfFinds(snap, '&');
    ValueWeighs(snap[..i]);
    if i < |snap| {
      PairsWeigh(snap[i + 1..]);
    } else {
      NoWeight();
    }
  }

  lemma NoWeight()
    ensures Weight([]) == 0
  {
  }

  /** Without '%' the texts are never the same when the rest is not silent. */
  lemma PlainLoudDiffers(o: Order)
    requires SnapAllowed(o) && Find(HeadPairs(o), "coopOrderSnap") == None && !RestSilent(o) && '%' !in o.tbOrderSnap
    ensures !SameText(o)
  {
    hide InsertAll, SignText, With, ValueOf, Pairs, Kept, HeadPairs, Silent, Weight, Find, SignedText, PostedText;
    hide IsBytes, EncodeInto, IndexOf;
    var snap, i := o.tbOrderSnap, IndexOf(o.tbOrderSnap, '&');
    if SameText(o) {
      PlainValue(Front(snap));
      LoudNeedsRoom(o);
      SilentNothing(HeadPairs(o), Snap(Kept(o)), Time());
      PlainPairs(snap[i + 1..]);
      KeptIsPosted(o);
      assert snap[i] == '&' && Kept(o)[i] == snap[i];
      TextsByPairs(o);
      AmpTells(HeadPairs(o), ValueOf(Front(snap)), Kept(o), Rest(snap));
    }
  }

  lemma SilentNothing(head: seq<Pair>, snap: Pair, time: Pair)
    ensures Silent(head, snap, [], time)
  {
  }

  /**
    The receiver computes the text that was signed in these cases, and only in these. If what is behind
    the first '&' of the snapshot adds nothing: exactly if what is in front of it reads as what was kept.
    If it adds something: at most for a snapshot with '%' whose encoding does not fit, and which reads
    shorter than what was kept by just what the rest adds.
   */
  lemma SameTextExactly(o: Order)
    requires SnapAllowed(o) && Find(HeadPairs(o), "coopOrderSnap") == None
    ensures RestSilent(o) ==> (SameText(o) <==> ReadsAlike(o))
    ensures !RestSilent(o) && SameText(o) ==>
              && '%' in o.tbOrderSnap && |Encode(o.tbOrderSnap)| >= SNAP_SIZE
              && |ValueOf(Front(o.tbOrderSnap))| < |Kept(o)|
              && |Kept(o)| <= |ValueOf(Front(o.tbOrderSnap))| + Weight(Rest(o.tbOrderSnap))
  {
    hide SameText, ReadsAlike, ValueOf, Pairs, HeadPairs, RestSilent, Find, Encode, EncodeInto;
    hide Front, Rest, Weight, Kept;
    if RestSilent(o) {
      SameWhenSilent(o);
    } else if SameText(o) {
      LoudNeedsRoom(o);
      SnapshotWeighs(o.tbOrderSnap);
      EncodingFits(o);
      LoudIsCut(o);
      if '%' !in o.tbOrderSnap {
        PlainLoudDiffers(o);
      }
    }
  }

  lemma LoudIsCut(o: Order)
    requires !RestSilent(o)
    ensures '&' in o.tbOrderSnap
  {
    IndexOfFinds(o.tbOrderSnap, '&');
  }

  lemma EncodingFits(o: Order)
    requires SnapAllowed(o)
    ensures Kept(o) <= o.tbOrderSnap && (Kept(o) == o.tbOrderSnap <==> |Encode(o.tbOrderSnap)| < SNAP_SIZE)
  {
    EncodesFitting(o.tbOrderSnap, SNAP_SIZE);
  }

  /** Where the encoding fits, the condition is that the snapshot holds no '%', '+' or '&'. */
  lemma SameTextWhenAllFits(o: Order)
    requires SnapAllowed(o) && Find(HeadPairs(o), "coopOrderSnap") == None && |Encode(o.tbOrderSnap)| < SNAP_SIZE
    ensures SameText(o) <==> Clean(o.tbOrderSnap)
  {
    hide SameText, ValueOf, Pairs, HeadPairs, RestSilent, Find, Encode, EncodeInto, Rest, Weight, Kept, IndexOf;
    var snap := o.tbOrderSnap;
    SameTextExactly(o);
    EncodingFits(o);
    SnapshotWeighs(snap);
    IndexOfFinds(snap, '&');
    if '&' !in snap {
      assert Front(snap) == snap;
      ValueFixesExactly(snap);
      if !RestSilent(o) { LoudIsCut(o); }
    }
  }

  /** For a snapshot without those three, it is that the encoding fits. */
  lemma SameTextWhenClean(o: Order)
    requires SnapAllowed(o) && Find(HeadPairs(o), "coopOrderSnap") == None && Clean(o.tbOrderSnap)
    ensures SameText(o) <==> |Encode(o.tbOrderSnap)| < SNAP_SIZE
  {
    hide SameText, ValueOf, Pairs, HeadPairs, RestSilent, Find, Encode, EncodeInto, Rest, Kept, IndexOf;
    var snap := o.tbOrderSnap;
    SameTextExactly(o);
    EncodingFits(o);
    IndexOfFinds(snap, '&');
    assert Front(snap) == snap;
    ValueFixesExactly(snap);
    if !RestSilent(o) { LoudIsCut(o); }
  }

  /** Without '%': that no '+' stands before the first '&', just that much is kept, and the rest adds nothing. */
  lemma SameTextWithoutPercent(o: Order)
    requires SnapAllowed(o) && Find(HeadPairs(o), "coopOrderSnap") == None && '%' !in o.tbOrderSnap
    ensures SameText(o) <==> RestSilent(o) && '+' !in Front(o.tbOrderSnap) && |Kept(o)| == |Front(o.tbOrderSnap)|
  {
    hide SameText, ValueOf, Pairs, HeadPairs, RestSilent, Find, Encode, EncodeInto, Rest, Kept, IndexOf, IsBytes;
    var f := Front(o.tbOrderSnap);
    SameTextExactly(o);
    EncodingFits(o);
    PlainValue(f);
    ValueFixesExactly(f);
    if |Kept(o)| == |f| {
      assert Kept(o) == f;
    }
  }

  // ---------- what the receiver decides ----------

  predicate NoCollision(md5: Digest, a: string, b: string) {
    Hash(md5, a) == Hash(md5, b) ==> a == b
  }

  lemma SameFront(a: string, b: string, k: string)
    ensures a + k == b + k <==> a == b
  {
    assert (a + k)[..|a|] == a && (b + k)[..|b|] == b;
  }

  /** Short of an MD5 collision the receiver accepts exactly if it computes the text that was signed. */
  lemma AcceptedIfSame(o: Order, privateKey: string, md5: Digest)
    requires SnapAllowed(o) && Find(HeadPairs(o), "sign") == None && privateKey != ""
    ensures SameText(o) ==> Receives(SuccessPost(o, privateKey, md5), privateKey, md5)
    ensures NoCollision(md5, SignedText(o) + privateKey, PostedText(o) + privateKey) ==>
              (Receives(SuccessPost(o, privateKey, md5), privateKey, md5) <==> SameText(o))
  {
    hide Receives, SuccessPost, SignedText, PostedText, SnapAllowed, HeadPairs, Find;
    ReceiverCompares(o, privateKey, md5);
    SameFront(SignedText(o), PostedText(o), privateKey);
  }

  /**
    The SUCCESS callback TmallNotify signs and posts passes a receiver that runs parse_params and
    CheckSign, for every snapshot without '%', '+' and '&' whose encoding fits, and whatever the
    other fields are as long as they do not smuggle in a "sign" parameter of their own.
   */
  lemma CallbackAccepted(o: Order, privateKey: string, md5: Digest)
    requires SnapAllowed(o) && Clean(o.tbOrderSnap) && |Encode(o.tbOrderSnap)| < SNAP_SIZE
    requires Find(HeadPairs(o), "sign") == None && privateKey != ""
    ensures Receives(SuccessPost(o, privateKey, md5), privateKey, md5)
  {
    hide Receives, SuccessPost, Pairs, HeadPairs, Find, ValueOf, Encode, EncodeInto, Kept, IndexOf;
    var snap := o.tbOrderSnap;
    EncodingFits(o);
    ValueFixesExactly(snap);
    SuccessPairs(o, snap);
    ShortIsTwo(o, snap);
    PostedPairs(o);
    AcceptedIfSame(o, privateKey, md5);
  }

  /** For every snapshot TmallNotify can be given: the conditions of SameTextExactly decide. */
  lemma CallbackAcceptedExactly(o: Order, privateKey: string, md5: Digest)
    requires SnapAllowed(o) && privateKey != ""
    requires Find(HeadPairs(o), "sign") == None && Find(HeadPairs(o), "coopOrderSnap") == None
    requires NoCollision(md5, SignedText(o) + privateKey, PostedText(o) + privateKey)
    ensures var accepted, snap := Receives(SuccessPost(o, privateKey, md5), privateKey, md5), o.tbOrderSnap;
            && (RestSilent(o) ==> (accepted <==> ReadsAlike(o)))
            && (!RestSilent(o) && accepted ==> '%' in snap && |Encode(snap)| >= SNAP_SIZE)
            && (|Encode(snap)| < SNAP_SIZE ==> (accepted <==> Clean(snap)))
            && (Clean(snap) ==> (accepted <==> |Encode(snap)| < SNAP_SIZE))
  {
    hide Receives, SuccessPost, SignedText, PostedText, SnapAllowed, HeadPairs, Find, SameText, Encode, Clean;
    hide RestSilent, ReadsAlike, NoCollision;
    AcceptedIfSame(o, privateKey, md5);
    SameTextExactly(o);
    if |Encode(o.tbOrderSnap)| < SNAP_SIZE { SameTextWhenAllFits(o); }
    if Clean(o.tbOrderSnap) { SameTextWhenClean(o); }
  }

  /** Other fields without '&' meet the conditions on the head, so that the snapshot alone decides. */
  lemma SnapshotDecides(o: Order, privateKey: string, md5: Digest)
    requires FieldsStand(o) && SnapAllowed(o) && privateKey != ""
    ensures var accepted, snap := Receives(SuccessPost(o, privateKey, md5), privateKey, md5), o.tbOrderSnap;
            && (RestSilent(o) && ReadsAlike(o) ==> accepted)
            && (NoCollision(md5, SignedText(o) + privateKey, PostedText(o) + privateKey) ==>
                  && (RestSilent(o) ==> (accepted <==> ReadsAlike(o)))
                  && (!RestSilent(o) && accepted ==> '%' in snap && |Encode(snap)| >= SNAP_SIZE)
                  && (|Encode(snap)| < SNAP_SIZE ==> (accepted <==> Clean(snap))))
  {
    hide Receives, SuccessPost, SignedText, PostedText, SnapAllowed, SameText, Encode, Clean;
    hide HeadPairs, FieldsStand, ValueOf;
    hide RestSilent, ReadsAlike, NoCollision;
    HeadOfFour(o);
    FindNoneOfFour(HeadPairs(o), "sign");
    FindNoneOfFour(HeadPairs(o), "coopOrderSnap");
    SameTextExactly(o);
    AcceptedIfSame(o, privateKey, md5);
    if NoCollision(md5, SignedText(o) + privateKey, PostedText(o) + privateKey) {
      CallbackAcceptedExactly(o, privateKey, md5);
    }
  }
}
