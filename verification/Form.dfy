/**
  src/HttpClient.cpp, parse_pair, parse_params and parse_query: a query string becomes a sorted map
  (std::map with cmpKeyAscii, first occurrence of a key wins) or the fields of a QsInfo (last
  occurrence wins). The functions come first, then the loops over the local buffer.
 */
module Form {
  import opened CText
  import opened UrlCodec

  const MAX_QUERYSTRING := 2048
  const MAX_KLEN := 256
  const MAX_VLEN := 512

  datatype Pair = Pair(key: string, value: string)

  // ---------- what a query string says ----------

  /** The texts between the '&' signs. */
  function Segments(q: string): (segs: seq<string>)
    ensures segs != []
  {
    var i := IndexOf(q, '&');
    if i == |q| then [q] else [q[..i]] + Segments(q[i + 1..])
  }

  /** The value read from the text behind '=': the decoder is given the terminator as well. */
  function ValueOf(text: string): (v: string)
    ensures NUL !in v
  {
    CStr(Decode(text + [NUL]))
  }

  function PairOf(segment: string): Option<Pair> {
    var i := IndexOf(segment, '=');
    if i == |segment| then None else Some(Pair(segment[..i], ValueOf(segment[i + 1..])))
  }

  function PairsOf(segments: seq<string>): seq<Pair> {
    if segments == [] then []
    else
      match PairOf(segments[0])
      case Some(p) => [p] + PairsOf(segments[1..])
      case None => PairsOf(segments[1..])
  }

  function Pairs(q: string): seq<Pair> {
    PairsOf(Segments(q))
  }

  /** The value of the first pair with this key. */
  function Find(ps: seq<Pair>, key: string): Option<string> {
    if ps == [] then None
    else if ps[0].key == key then Some(ps[0].value)
    else Find(ps[1..], key)
  }

  // ---------- std::map<string, string, cmpKeyAscii> ----------

  /** The map holds the first occurrence of a key. */
  lemma {:induction false} MapHoldsFirst(ps: seq<Pair>, key: string, i: nat)
    requires i < |ps| && ps[i].key == key && forall j :: 0 <= j < i ==> ps[j].key != key
    ensures Find(ps, key) == Some(ps[i].value)
  {
    if i > 0 {
      assert ps[0].key != key;
      MapHoldsFirst(ps[1..], key, i - 1);
    }
  }

  /** In key order, no key twice. */
  predicate Sorted(es: seq<Pair>) {
    |es| > 1 ==> Before(es[0].key, es[1].key) && Sorted(es[1..])
  }

  /** map::insert: an entry that is already there stays. */
  function Inserted(es: seq<Pair>, p: Pair): seq<Pair> {
    if es == [] then [p]
    else if es[0].key == p.key then es
    else if Before(p.key, es[0].key) then [p] + es
    else [es[0]] + Inserted(es[1..], p)
  }

  function InsertAll(es: seq<Pair>, ps: seq<Pair>): seq<Pair>
    decreases ps
  {
    if ps == [] then es else InsertAll(Inserted(es, ps[0]), ps[1..])
  }

  /** The map a query string fills when it starts out empty. */
  function MapOf(q: string): seq<Pair> {
    InsertAll([], Pairs(q))
  }

  lemma {:induction false} InsertedIsSorted(es: seq<Pair>, p: Pair)
    requires Sorted(es)
    ensures Sorted(Inserted(es, p))
    ensures Inserted(es, p)[0].key == p.key || (es != [] && Inserted(es, p)[0].key == es[0].key)
  {
    if es != [] && es[0].key != p.key {
      BeforeIsTotal(p.key, es[0].key);
      if Before(p.key, es[0].key) {
        assert ([p] + es)[1..] == es;
      } else {
        InsertedIsSorted(es[1..], p);
        assert Inserted(es, p)[1..] == Inserted(es[1..], p);
      }
    }
  }

  /** In a sorted list every key comes before all later ones. */
  lemma {:induction false} FirstIsBefore(es: seq<Pair>, p: Pair)
    requires Sorted(es) && es != [] && p in es[1..]
    ensures Before(es[0].key, p.key)
  {
    if es[1] != p {
      assert es[1..] == [es[1]] + es[1..][1..];
      FirstIsBefore(es[1..], p);
      BeforeIsTransitive(es[0].key, es[1].key, p.key);
    }
  }

  /** Key order is the order of bytes. */
  lemma {:induction false} SortedByBytes(es: seq<Pair>)
    requires Sorted(es)
    ensures forall i, j :: 0 <= i < j < |es| ==> ByteLess(es[i].key, es[j].key)
  {
    hide ByteLess, Before;
    if es != [] {
      SortedByBytes(es[1..]);
      forall i, j | 0 <= i < j < |es| ensures ByteLess(es[i].key, es[j].key) {
        if i == 0 {
          assert es[j] == es[1..][j - 1];
          FirstIsBefore(es, es[j]);
          BeforeIsByteOrder(es[0].key, es[j].key);
        } else {
          assert es[i] == es[1..][i - 1] && es[j] == es[1..][j - 1];
        }
      }
    }
  }

  /** A filled map is in key order and holds no key twice. */
  lemma {:induction false} FilledIsSorted(es: seq<Pair>, ps: seq<Pair>)
    requires Sorted(es)
    ensures Sorted(InsertAll(es, ps))
    decreases ps
  {
    if ps != [] {
      InsertedIsSorted(es, ps[0]);
      FilledIsSorted(Inserted(es, ps[0]), ps[1..]);
    }
  }

  /** In a sorted list a key that comes before the first one is absent. */
  lemma {:induction false} AbsentBefore(es: seq<Pair>, key: string)
    requires Sorted(es) && es != [] && Before(key, es[0].key)
    ensures Find(es, key) == None
  {
    BeforeIsStrict(key, es[0].key);
    if |es| > 1 {
      BeforeIsTransitive(key, es[0].key, es[1].key);
      AbsentBefore(es[1..], key);
    }
  }

  lemma {:induction false} FindInserted(es: seq<Pair>, p: Pair, key: string)
    requires Sorted(es)
    ensures Find(Inserted(es, p), key) ==
            if Find(es, key) == None && key == p.key then Some(p.value) else Find(es, key)
  {
    if es == [] {
    } else if es[0].key == p.key {
    } else if Before(p.key, es[0].key) {
      AbsentBefore(es, p.key);
      assert ([p] + es)[1..] == es;
    } else {
      FindInserted(es[1..], p, key);
      assert Inserted(es, p)[1..] == Inserted(es[1..], p);
    }
  }

  /** First occurrence wins: looking a key up in the filled map finds what was there before, else its first pair. */
  lemma {:induction false} FindInsertAll(es: seq<Pair>, ps: seq<Pair>, key: string)
    requires Sorted(es)
    ensures Find(InsertAll(es, ps), key) == if Find(es, key) != None then Find(es, key) else Find(ps, key)
    decreases ps
  {
    if ps != [] {
      FindInserted(es, ps[0], key);
      InsertedIsSorted(es, ps[0]);
      FindInsertAll(Inserted(es, ps[0]), ps[1..], key);
    }
  }

  /** A sorted map is determined by its lookups. */
  lemma {:induction false} SortedIsDetermined(es: seq<Pair>, fs: seq<Pair>)
    requires Sorted(es) && Sorted(fs)
    requires forall key :: Find(es, key) == Find(fs, key)
    ensures es == fs
  {
    if es == [] || fs == [] {
      assert es != [] ==> Find(es, es[0].key) != Find(fs, es[0].key);
      assert fs != [] ==> Find(es, fs[0].key) != Find(fs, fs[0].key);
    } else {
      var e, f := es[0].key, fs[0].key;
      BeforeIsTotal(e, f);
      assert Find(es, e) == Some(es[0].value) == Find(fs, e) && Find(es, f) == Find(fs, f) == Some(fs[0].value);
      if Before(e, f) { AbsentBefore(fs, e); assert false; }
      if Before(f, e) { AbsentBefore(es, f); assert false; }
      forall key ensures Find(es[1..], key) == Find(fs[1..], key) {
        assert Find(es, key) == Find(fs, key);
        if key == e {
          if |es| > 1 { AbsentBefore(es[1..], key); }
          if |fs| > 1 { AbsentBefore(fs[1..], key); }
        }
      }
      SortedIsDetermined(es[1..], fs[1..]);
      assert es == [es[0]] + es[1..] && fs == [fs[0]] + fs[1..];
    }
  }

  // ---------- splitting ----------

  /** The first cut of a sum is the first cut of its left part, or the '&' between the parts. */
  lemma CutOfSum(a: string, b: string)
    ensures var q, i := a + "&" + b, IndexOf(a, '&');
            && IndexOf(q, '&') == i < |q|
            && (i == |a| ==> q[..i] == a && q[i + 1..] == b)
            && (i < |a| ==> q[..i] == a[..i] && q[i + 1..] == a[i + 1..] + "&" + b)
  {
    hide IndexOf;
    var q, i := a + "&" + b, IndexOf(a, '&');
    assert q[..|a|] == a && q[|a|] == '&' && q[|a| + 1..] == b;
    assert q[..i] == a[..i] && q[i] == '&';
    if i < |a| {
      assert q[i + 1..] == a[i + 1..] + "&" + b;
    }
    IndexOfUnique(q, '&', i);
  }

  lemma CutHere(q: string, first: string, rest: string)
    requires IndexOf(q, '&') < |q| && q[..IndexOf(q, '&')] == first && q[IndexOf(q, '&') + 1..] == rest
    ensures Segments(q) == [first] + Segments(rest)
  {
  }

  lemma {:induction false} SegmentsOfSum(a: string, b: string)
    ensures Segments(a + "&" + b) == Segments(a) + Segments(b)
    decreases |a|
  {
    var q, i := a + "&" + b, IndexOf(a, '&');
    CutOfSum(a, b);
    if i == |a| {
      CutHere(q, a, b);
    } else {
      var first, rest := a[..i], a[i + 1..];
      CutHere(a, first, rest);
      SegmentsOfSum(rest, b);
      CutHere(q, first, rest + "&" + b);
      AssocSeq([first], Segments(rest), Segments(b));
    }
  }

  lemma AssocSeq(x: seq<string>, y: seq<string>, z: seq<string>)
    ensures x + (y + z) == x + y + z
  {
  }

  lemma {:induction false} PairsOfSum(x: seq<string>, y: seq<string>)
    ensures PairsOf(x + y) == PairsOf(x) + PairsOf(y)
  {
    if x == [] {
      assert x + y == y;
    } else {
      assert (x + y)[1..] == x[1..] + y;
      PairsOfSum(x[1..], y);
    }
  }

  /** An '&' between two query strings puts their pairs one after the other. */
  lemma PairsSplit(a: string, b: string)
    ensures Pairs(a + "&" + b) == Pairs(a) + Pairs(b)
  {
    SegmentsOfSum(a, b);
    PairsOfSum(Segments(a), Segments(b));
  }

  lemma SingleSegment(a: string)
    requires '&' !in a
    ensures Segments(a) == [a]
    ensures Pairs(a) == match PairOf(a) case Some(p) => [p] case None => []
  {
    IndexOfUnique(a, '&', |a|);
    assert PairsOf([a][1..]) == [];
  }

  lemma {:induction false} SegmentsOfJoin(segs: seq<string>)
    requires segs != [] && forall i :: 0 <= i < |segs| ==> '&' !in segs[i]
    ensures Segments(Join(segs, "&")) == segs
  {
    SingleSegment(segs[0]);
    if |segs| > 1 {
      SegmentsOfSum(segs[0], Join(segs[1..], "&"));
      SegmentsOfJoin(segs[1..]);
      assert segs == [segs[0]] + segs[1..];
    } else {
      assert segs == [segs[0]];
    }
  }

  /** A segment without '=' leaves no trace, wherever it stands. */
  lemma SegmentWithoutEqualsVanishes(a: string, junk: string, b: string)
    requires '&' !in junk && '=' !in junk
    ensures Pairs(a + "&" + (junk + "&" + b)) == Pairs(a + "&" + b)
  {
    PairsSplit(a, junk + "&" + b);
    PairsSplit(junk, b);
    PairsSplit(a, b);
    SingleSegment(junk);
    IndexOfUnique(junk, '=', |junk|);
    assert [] + Pairs(b) == Pairs(b);
  }

  // ---------- printing ----------

  /** A pair that can be printed: '&' and '=' would end the key, NUL the text. */
  predicate Printable(p: Pair) {
    '&' !in p.key && '=' !in p.key && NUL !in p.value && IsBytes(p.value)
  }

  function PrintPair(p: Pair): string
    requires Printable(p)
  {
    p.key + "=" + Encode(p.value)
  }

  function Print(ps: seq<Pair>): string
    requires forall i :: 0 <= i < |ps| ==> Printable(ps[i])
  {
    if |ps| == 0 then ""
    else if |ps| == 1 then PrintPair(ps[0])
    else PrintPair(ps[0]) + "&" + Print(ps[1..])
  }

  lemma ValueOfEncoded(v: string)
    requires NUL !in v && IsBytes(v)
    ensures ValueOf(Encode(v)) == v
  {
    DecodeUndoesEncode(v, [NUL]);
    assert Decode([NUL]) == [NUL];
    CStrTerminated(v, "");
    assert v + [NUL] + "" == v + [NUL];
  }

  /** A text without '%', '+' and NUL is its own value. */
  lemma ValueOfPlain(text: string)
    requires '%' !in text && '+' !in text && NUL !in text
    ensures ValueOf(text) == text
  {
    var t := text + [NUL];
    assert '%' !in t && '+' !in t;
    DecodeFixesExactly(t);
    CStrTerminated(text, "");
    assert text + [NUL] + "" == t;
  }

  /** "key=text" with no '&' inside is one segment holding that key and the text's value. */
  lemma OnePair(key: string, text: string)
    requires '&' !in key && '=' !in key && '&' !in text
    ensures Pairs(key + "=" + text) == [Pair(key, ValueOf(text))]
  {
    var seg := key + "=" + text;
    SingleSegment(seg);
    IndexOfUnique(seg, '=', |key|);
    assert seg[..|key|] == key && seg[|key| + 1..] == text;
  }

  lemma PairsOfPrintPair(p: Pair)
    requires Printable(p)
    ensures Pairs(PrintPair(p)) == [p]
  {
    EncodeIsPlain(p.value);
    ValueOfEncoded(p.value);
    OnePair(p.key, Encode(p.value));
  }

  /** Parsing undoes printing, pair by pair. */
  lemma {:induction false} ParseUndoesPrint(ps: seq<Pair>)
    requires forall i :: 0 <= i < |ps| ==> Printable(ps[i])
    ensures Pairs(Print(ps)) == ps
  {
    if ps == [] {
      SingleSegment("");
    } else {
      PairsOfPrintPair(ps[0]);
      if |ps| > 1 {
        PairsSplit(PrintPair(ps[0]), Print(ps[1..]));
        ParseUndoesPrint(ps[1..]);
        assert ps == [ps[0]] + ps[1..];
      } else {
        assert ps == [ps[0]];
      }
    }
  }

  lemma {:induction false} InsertAllSorted(es: seq<Pair>)
    requires Sorted(es)
    ensures InsertAll([], es) == es
  {
    forall key ensures Find(InsertAll([], es), key) == Find(es, key) {
      FindInsertAll([], es, key);
    }
    FilledIsSorted([], es);
    SortedIsDetermined(InsertAll([], es), es);
  }

  /** Printing a map and parsing it gives the map back; printing any list gives each key its first value. */
  lemma PrintAndParse(ps: seq<Pair>)
    requires forall i :: 0 <= i < |ps| ==> Printable(ps[i])
    ensures Sorted(ps) ==> MapOf(Print(ps)) == ps
    ensures forall key :: Find(MapOf(Print(ps)), key) == Find(ps, key)
  {
    ParseUndoesPrint(ps);
    if Sorted(ps) {
      InsertAllSorted(ps);
    }
    forall key ensures Find(MapOf(Print(ps)), key) == Find(ps, key) {
      FindInsertAll([], ps, key);
    }
  }

  // ---------- the loops ----------

  /** The key and the decoded value of a segment fit the two local buffers. */
  predicate SegmentFits(segment: string) {
    var i := IndexOf(segment, '=');
    i < |segment| ==> i < MAX_KLEN && |Decode(segment[i + 1..] + [NUL])| < MAX_VLEN
  }

  predicate AllFit(segments: seq<string>) {
    forall i :: 0 <= i < |segments| ==> SegmentFits(segments[i])
  }

  /** The terminator fits behind the query in params as well. */
  predicate QueryFits(q: string) {
    |q| < MAX_QUERYSTRING && AllFit(Segments(q))
  }

  // ---------- printed maps in these buffers ----------

  /** A pair whose key and value fit the local buffers of parse_params. */
  predicate PairFits(p: Pair) {
    NUL !in p.key && |p.key| < 256 && |p.value| < 511
  }

  lemma PrintedSegmentFits(p: Pair)
    requires Printable(p) && PairFits(p)
    ensures Segments(PrintPair(p)) == [PrintPair(p)] && SegmentFits(PrintPair(p)) && NUL !in PrintPair(p)
  {
    hide Decode, Encode, IndexOf;
    var text := PrintPair(p);
    EncodeIsPlain(p.value);
    SingleSegment(text);
    assert text[..|p.key|] == p.key && text[|p.key| + 1..] == Encode(p.value);
    IndexOfUnique(text, '=', |p.key|);
    DecodeUndoesEncode(p.value, [NUL]);
    DecodeFixesExactly([NUL]);
  }

  /** A printed map is something parse_params can be given, if its pairs fit one by one, and all together. */
  lemma {:induction false} PrintFits(ps: seq<Pair>)
    requires forall i :: 0 <= i < |ps| ==> Printable(ps[i]) && PairFits(ps[i])
    ensures NUL !in Print(ps) && AllFit(Segments(Print(ps)))
    ensures |Print(ps)| < 2048 ==> QueryFits(Print(ps))
  {
    hide SegmentFits, PrintPair;
    if ps == [] {
      SingleSegment("");
      NothingFits();
    } else {
      PrintedSegmentFits(ps[0]);
      if |ps| > 1 {
        PrintFits(ps[1..]);
        SegmentsOfSum(PrintPair(ps[0]), Print(ps[1..]));
      }
    }
  }

  lemma NothingFits()
    ensures SegmentFits("")
  {
  }

  /** strncpy(dst, src, strlen(src)) and the terminator behind it. */
  method CopyText(src: string, dst: array<char>)
    requires |src| < dst.Length && NUL !in src
    modifies dst
    ensures dst[..|src|] == src && dst[|src|] == NUL
    ensures CStr(dst[..]) == src
  {
    forall k | 0 <= k < |src| {
      dst[k] := src[k];
    }
    dst[|src|] := NUL;
    CStrTerminated(src, dst[|src| + 1..]);
    assert dst[..] == src + [NUL] + dst[|src| + 1..];
  }

  method ParsePair(pair: string, key: array<char>, value: array<char>) returns (ok: bool)
    requires NUL !in pair && SegmentFits(pair)
    requires key != value && key.Length == MAX_KLEN && value.Length == MAX_VLEN
    modifies key, value
    ensures ok <==> PairOf(pair) != None
    ensures ok ==> PairOf(pair) == Some(Pair(CStr(key[..]), CStr(value[..])))
    ensures !ok ==> key[..] == old(key[..]) && value[..] == old(value[..])
  {
    var pos := IndexOf(pair, '=');
    if pos == |pair| {
      return false;
    }
    CopyText(pair[..pos], key);
    var len := |pair| - pos;
    ghost var text := pair[pos + 1..];
    // len characters from behind '=' are the rest of the pair and its terminator
    assert |text + [NUL]| == len;
    var n := UrlDecode(pair[pos + 1..] + [NUL], value, MAX_VLEN);
    ReadBack(value[..], Decode(text + [NUL]));
    return true;
  }

  /** A decoded text and the terminator behind it read back as the text up to its own first NUL. */
  lemma {:induction false} ReadBack(buf: string, text: string)
    requires |text| < |buf| && buf[..|text|] == text && buf[|text|] == NUL
    ensures CStr(buf) == CStr(text)
  {
    if text != [] && text[0] != NUL {
      assert buf[0] == text[0];
      assert buf[1..][..|text| - 1] == text[1..];
      ReadBack(buf[1..], text[1..]);
    }
  }

  /** std::map<string, string, cmpKeyAscii>, kept in key order. */
  class FormData {
    var entries: seq<Pair>

    ghost predicate Valid()
      reads this
    {
      Sorted(entries)
    }

    constructor ()
      ensures Valid() && entries == []
    {
      entries := [];
    }

    method Insert(p: Pair)
      requires Valid()
      modifies this
      ensures Valid() && entries == Inserted(old(entries), p)
      ensures forall i, j :: 0 <= i < j < |entries| ==> ByteLess(entries[i].key, entries[j].key)
    {
      InsertedIsSorted(entries, p);
      SortedByBytes(Inserted(entries, p));
      entries := Inserted(entries, p);
    }
  }

  /** The buffer holds a text and its terminator at this place. */
  ghost predicate Holds(buf: string, at: nat, text: string) {
    && at + |text| < |buf| && NUL !in text
    && buf[at..at + |text|] == text && buf[at + |text|] == NUL
  }

  lemma HeldText(buf: string, at: nat, text: string)
    requires Holds(buf, at, text)
    ensures CStr(buf[at..]) == text
  {
    ReadBack(buf[at..], text);
    CStrWhole(text);
  }

  /** Writing NUL over a character of a text makes two texts of it. */
  lemma CutText(buf: string, at: nat, text: string, i: nat)
    requires Holds(buf, at, text) && i < |text|
    ensures Holds(buf[at + i := NUL], at, text[..i])
    ensures Holds(buf[at + i := NUL], at + i + 1, text[i + 1..])
  {
    assert buf[at + i := NUL][at..at + i] == buf[at..at + |text|][..i];
    assert buf[at + i := NUL][at + i + 1..at + |text|] == buf[at..at + |text|][i + 1..];
  }

  /** What one turn of the loop does with the text at pr, and what it leaves. */
  lemma FirstSegment(rest: string, i: nat)
    requires i == IndexOf(rest, '&') && AllFit(Segments(rest))
    ensures SegmentFits(rest[..i])
    ensures i == |rest| ==> Pairs(rest) == PairsOf([rest])
    ensures i < |rest| ==> AllFit(Segments(rest[i + 1..])) && Pairs(rest) == PairsOf([rest[..i]]) + Pairs(rest[i + 1..])
  {
    hide PairsOf, IndexOf, SegmentFits;
    if i == |rest| {
      assert rest[..i] == rest && SegmentFits(Segments(rest)[0]);
    } else {
      var more := Segments(rest[i + 1..]);
      CutHere(rest, rest[..i], rest[i + 1..]);
      assert SegmentFits(Segments(rest)[0]);
      assert forall k :: 0 <= k < |more| ==> Segments(rest)[k + 1] == more[k];
      PairsOfSum([rest[..i]], more);
    }
  }

  lemma {:induction false} InsertAllSum(es: seq<Pair>, x: seq<Pair>, y: seq<Pair>)
    ensures InsertAll(es, x + y) == InsertAll(InsertAll(es, x), y)
    decreases x
  {
    if x == [] {
      assert x + y == y;
    } else {
      assert (x + y)[1..] == x[1..] + y;
      InsertAllSum(Inserted(es, x[0]), x[1..], y);
    }
  }

  /** parse_pair, and the insert behind it when it succeeds. */
  method InsertPair(pair: string, key: array<char>, value: array<char>, formData: FormData)
    requires NUL !in pair && SegmentFits(pair)
    requires key != value && key.Length == MAX_KLEN && value.Length == MAX_VLEN
    requires formData.Valid()
    modifies key, value, formData
    ensures formData.Valid()
    ensures formData.entries == InsertAll(old(formData.entries), PairsOf([pair]))
  {
    var found := ParsePair(pair, key, value);
    assert PairsOf([pair][1..]) == [];
    if found {
      formData.Insert(Pair(CStr(key[..]), CStr(value[..])));
      assert PairsOf([pair]) == [PairOf(pair).value];
    }
  }

  /** The pairs of the query are those dealt with and those of the rest. */
  ghost predicate Walking(query: string, done: seq<Pair>, rest: string) {
    AllFit(Segments(rest)) && Pairs(query) == done + Pairs(rest)
  }

  lemma WalkingTurn(query: string, done: seq<Pair>, rest: string)
    requires Walking(query, done, rest)
    ensures var i := IndexOf(rest, '&');
            var now := PairsOf([rest[..i]]);
            && SegmentFits(rest[..i])
            && (i == |rest| ==> rest[..i] == rest && Pairs(query) == done + now)
            && (i < |rest| ==> Walking(query, done + now, rest[i + 1..]))
  {
    hide Pairs, PairsOf, Segments, IndexOf, SegmentFits, AllFit;
    var i := IndexOf(rest, '&');
    FirstSegment(rest, i);
    WholeText(rest, i);
    if i < |rest| {
      AppendTurn(done, PairsOf([rest[..i]]), Pairs(rest[i + 1..]));
    }
  }

  lemma WholeText(text: string, i: nat)
    requires i <= |text|
    ensures i == |text| ==> text[..i] == text
  {
  }

  lemma AppendTurn(x: seq<Pair>, y: seq<Pair>, z: seq<Pair>)
    ensures x + (y + z) == x + y + z
  {
  }

  lemma WalkingStart(query: string)
    requires QueryFits(query)
    ensures Walking(query, [], query)
  {
    assert [] + Pairs(query) == Pairs(query);
  }

  method ParseParams(query: string, formData: FormData) returns (ok: bool)
    requires NUL !in query
    requires |query| <= MAX_QUERYSTRING ==> QueryFits(query)
    requires formData.Valid()
    modifies formData
    ensures formData.Valid()
    ensures ok <==> |query| <= 2048
    ensures formData.entries == if ok then InsertAll(old(formData.entries), Pairs(query)) else old(formData.entries)
  {
    hide PairsOf, Segments, InsertAll, IndexOf, Walking, Holds, AllFit, Sorted;
    if |query| > MAX_QUERYSTRING {
      return false;
    }
    var params := LocalCopy(query);
    var key := new char[MAX_KLEN];
    var value := new char[MAX_VLEN];
    var pr: nat := 0;
    ghost var done, rest := [], query;
    WalkingStart(query);
    NothingInserted(formData.entries);
    while true
      invariant Holds(params[..], pr, rest) && Walking(query, done, rest)
      invariant formData.Valid() && formData.entries == InsertAll(old(formData.entries), done)
      modifies params, key, value, formData
      decreases |rest|
    {
      WalkingTurn(query, done, rest);
      var text := ReadText(params, pr, rest);
      var str := IndexOf(text, '&');
      ghost var now := PairsOf([rest[..str]]);
      InsertAllSum(old(formData.entries), done, now);
      if str == |text| {
        InsertPair(text, key, value, formData);
        break;
      }
      text := CutAt(params, pr, rest, str);
      InsertPair(text, key, value, formData);
      pr := pr + |text| + 1;
      done := done + now;
      rest := rest[str + 1..];
    }
    return true;
  }

  lemma NothingInserted(es: seq<Pair>)
    ensures InsertAll(es, []) == es
  {
  }

  /** The C string at a place in a buffer. */
  method ReadText(params: array<char>, pr: nat, ghost rest: string) returns (text: string)
    requires Holds(params[..], pr, rest)
    ensures text == rest && NUL !in text
  {
    HeldText(params[..], pr, rest);
    text := CStr(params[..][pr..]);
  }

  /** *str = '\0', and the C string that is left in front of it. */
  method CutAt(params: array<char>, pr: nat, ghost rest: string, str: nat) returns (text: string)
    requires Holds(params[..], pr, rest) && str < |rest|
    modifies params
    ensures Holds(params[..], pr + str + 1, rest[str + 1..])
    ensures text == rest[..str] && NUL !in text
  {
    CutText(params[..], pr, rest, str);
    ghost var cut := params[..][pr + str := NUL];
    params[pr + str] := NUL;
    assert params[..] == cut;
    text := ReadText(params, pr, rest[..str]);
  }

  /** char params[MAX_QUERYSTRING] = {0}, with the query copied in. */
  method LocalCopy(query: string) returns (params: array<char>)
    requires NUL !in query && |query| < MAX_QUERYSTRING
    ensures fresh(params) && params.Length == MAX_QUERYSTRING && Holds(params[..], 0, query)
  {
    params := new char[MAX_QUERYSTRING](_ => NUL);
    forall k | 0 <= k < |query| {
      params[k] := query[k];
    }
  }
}
