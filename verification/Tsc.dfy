/**
  The shared table of phone segments: one byte packs operator and province (src/TopupImpl.cpp,
  check_tsc; src/TopupZkcl.cpp, CheckProduct; src/GlobalConfig.cpp, the loading of tsc_map). It
  saves a lookup over the network, and any number of clients read and fill it at once.
 */
module Tsc {
  import opened CText

  // What parse_tsc finds out about a segment. An unparsable answer leaves both numbers at -1.
  datatype Lookup = NotLocated | Located(op: int, province: int)
  type Locator = map<string, Lookup>

  function Locate(m: Locator, segment: string): Lookup {
    if segment in m then m[segment] else NotLocated
  }

  // ---------- one byte ----------

  /** info = province; info <<= 2; info += op; on a uint8_t. */
  function Pack(op: int, province: int): (info: int)
    ensures 0 <= info < 256
  {
    (province % 256 * 4 % 256 + op) % 256
  }

  /** info & 0x3 */
  function OpOf(info: int): int {
    info % 4
  }

  /** info >> 2 */
  function ProvinceOf(info: int): int {
    info / 4
  }

  predicate Packable(op: int, province: int) {
    0 <= op < 4 && 0 <= province < 64
  }

  /** The byte gives back what was packed exactly for an operator below 4 and a province below 64. */
  lemma UnpackUndoesPack(op: int, province: int)
    ensures OpOf(Pack(op, province)) == op && ProvinceOf(Pack(op, province)) == province <==> Packable(op, province)
  {
    if Packable(op, province) {
      assert province % 256 * 4 % 256 == province * 4;
    }
  }

  // ---------- verdicts ----------

  datatype Asker = ForTmall(op: int, province: int) | ForZkcl

  // The returned code, and the operator and province that are put in the order, if any.
  datatype Verdict = Verdict(ret: int, found: Option<(int, int)>)

  /** What a client concludes from an operator and a province. */
  function Judge(a: Asker, op: int, province: int): Verdict {
    match a
    case ForTmall(o, p) => Verdict(if o != op || p != province then 1 else 0, None)
    case ForZkcl => Verdict(0, if op != -1 && province != -1 then Some((op, province)) else None)
  }

  function Unlocated(a: Asker): Verdict {
    Verdict(if a.ForTmall? then 1 else 2, None)
  }

  /** The verdict without a cache. */
  function Uncached(a: Asker, l: Lookup): Verdict {
    match l
    case NotLocated => Unlocated(a)
    case Located(op, province) => Judge(a, op, province)
  }

  // ---------- any number of clients ----------

  // Where a client is: about to search, about to look up, about to insert, or through.
  datatype Client =
    | Searching(asker: Asker, segment: string)
    | Missing(asker: Asker, segment: string)
    | Adding(asker: Asker, segment: string, op: int, province: int)
    | Through(asker: Asker, segment: string, verdict: Verdict)

  datatype Shared = Shared(cache: map<string, int>, clients: seq<Client>)

  datatype Event = Arrive(asker: Asker, segment: string) | Move(c: nat)

  /** insert keeps an entry that is there. */
  function Insert(cache: map<string, int>, segment: string, info: int): map<string, int> {
    if segment in cache then cache else cache[segment := info]
  }

  function MoveOf(m: Locator, cache: map<string, int>, c: Client): Client {
    match c
    case Searching(a, s) =>
      if s in cache then Through(a, s, Judge(a, OpOf(cache[s]), ProvinceOf(cache[s]))) else Missing(a, s)
    case Missing(a, s) =>
      (match Locate(m, s)
       case NotLocated => Through(a, s, Unlocated(a))
       case Located(op, province) => Adding(a, s, op, province))
    case Adding(a, s, op, province) => Through(a, s, Judge(a, op, province))
    case Through(_, _, _) => c
  }

  predicate Enabled(s: Shared, e: Event) {
    e.Move? ==> e.c < |s.clients|
  }

  function Step(m: Locator, s: Shared, e: Event): Shared
    requires Enabled(s, e)
  {
    match e
    case Arrive(a, segment) => s.(clients := s.clients + [Searching(a, segment)])
    case Move(c) =>
      var k := s.clients[c];
      Shared(if k.Adding? then Insert(s.cache, k.segment, Pack(k.op, k.province)) else s.cache,
             s.clients[c := MoveOf(m, s.cache, k)])
  }

  predicate Legal(m: Locator, s: Shared, es: seq<Event>)
    decreases es
  {
    es == [] || (Enabled(s, es[0]) && Legal(m, Step(m, s, es[0]), es[1..]))
  }

  function After(m: Locator, s: Shared, es: seq<Event>): Shared
    requires Legal(m, s, es)
    decreases es
  {
    if es == [] then s else After(m, Step(m, s, es[0]), es[1..])
  }

  // ---------- the cache is invisible ----------

  ghost predicate AllPackable(m: Locator) {
    forall s :: s in m && m[s].Located? ==> Packable(m[s].op, m[s].province)
  }

  /** Every entry says what the lookup says. */
  ghost predicate Agrees(cache: map<string, int>, m: Locator) {
    forall s :: s in cache ==> Locate(m, s) == Located(OpOf(cache[s]), ProvinceOf(cache[s]))
  }

  ghost predicate Kept(a: map<string, int>, b: map<string, int>) {
    forall s :: s in a ==> s in b && b[s] == a[s]
  }

  predicate ClientOk(m: Locator, c: Client) {
    match c
    case Through(a, s, v) => v == Uncached(a, Locate(m, s))
    case Adding(a, s, op, province) => Locate(m, s) == Located(op, province)
    case _ => true
  }

  /** Whoever is through has the verdict of the lookup. */
  ghost predicate AllRight(m: Locator, s: Shared) {
    forall i :: 0 <= i < |s.clients| && s.clients[i].Through? ==>
      s.clients[i].verdict == Uncached(s.clients[i].asker, Locate(m, s.clients[i].segment))
  }

  ghost predicate Inv(m: Locator, s: Shared) {
    Agrees(s.cache, m) && forall i :: 0 <= i < |s.clients| ==> ClientOk(m, s.clients[i])
  }

  lemma InsertAgrees(cache: map<string, int>, m: Locator, segment: string, op: int, province: int)
    requires AllPackable(m) && Agrees(cache, m) && Locate(m, segment) == Located(op, province)
    ensures Agrees(Insert(cache, segment, Pack(op, province)), m)
    ensures Kept(cache, Insert(cache, segment, Pack(op, province)))
  {
    hide Pack, OpOf, ProvinceOf;
    UnpackUndoesPack(op, province);
  }

  lemma StepKeeps(m: Locator, s: Shared, e: Event)
    requires AllPackable(m) && Inv(m, s) && Enabled(s, e)
    ensures Inv(m, Step(m, s, e))
  {
    hide Pack, OpOf, ProvinceOf;
    var t := Step(m, s, e);
    if e.Move? {
      var k := s.clients[e.c];
      assert ClientOk(m, k);
      if k.Adding? {
        InsertAgrees(s.cache, m, k.segment, k.op, k.province);
      }
      assert ClientOk(m, MoveOf(m, s.cache, k));
    }
    forall i | 0 <= i < |t.clients| ensures ClientOk(m, t.clients[i]) {
      assert i < |s.clients| ==> ClientOk(m, s.clients[i]);
    }
  }

  /** With a cache that agrees, every verdict in every interleaving is the one the lookup gives. */
  lemma {:induction false} EveryVerdictIsRight(m: Locator, s: Shared, es: seq<Event>)
    requires AllPackable(m) && Inv(m, s) && Legal(m, s, es)
    ensures AllRight(m, After(m, s, es)) && Agrees(After(m, s, es).cache, m)
    decreases es
  {
    if es == [] {
      forall i | 0 <= i < |s.clients| && s.clients[i].Through?
        ensures s.clients[i].verdict == Uncached(s.clients[i].asker, Locate(m, s.clients[i].segment))
      {
        assert ClientOk(m, s.clients[i]);
      }
    } else {
      hide Inv, AllRight, Agrees;
      StepKeeps(m, s, es[0]);
      EveryVerdictIsRight(m, Step(m, s, es[0]), es[1..]);
    }
  }

  /** An entry never changes, whatever the lookup answers. */
  lemma {:induction false} EntriesStay(m: Locator, s: Shared, es: seq<Event>)
    requires Legal(m, s, es)
    ensures Kept(s.cache, After(m, s, es).cache)
    decreases es
  {
    if es != [] {
      EntriesStay(m, Step(m, s, es[0]), es[1..]);
    }
  }

  const NOTHING := Shared(map[], [])

  /** Two clients ask for the same segment, one after the other. */
  function TwoAsk(segment: string): seq<Event> {
    [Arrive(ForZkcl, segment), Move(0), Move(0), Move(0), Arrive(ForZkcl, segment), Move(1)]
  }

  /** A lookup that does not fit in the byte is told wrongly the second time. */
  lemma SecondVerdictIsWrong(m: Locator, segment: string)
    requires segment in m && m[segment].Located? && !Packable(m[segment].op, m[segment].province)
    ensures Legal(m, NOTHING, TwoAsk(segment)) && !AllRight(m, After(m, NOTHING, TwoAsk(segment)))
  {
    hide Pack, OpOf, ProvinceOf;
    var op, p := m[segment].op, m[segment].province;
    var info := Pack(op, p);
    var c := Through(ForZkcl, segment, Judge(ForZkcl, op, p));
    var es := TwoAsk(segment);
    var s1 := Shared(map[], [Searching(ForZkcl, segment)]);
    var s2 := Shared(map[], [Missing(ForZkcl, segment)]);
    var s3 := Shared(map[], [Adding(ForZkcl, segment, op, p)]);
    var s4 := Shared(map[segment := info], [c]);
    var s5 := Shared(map[segment := info], [c, Searching(ForZkcl, segment)]);
    var d := Through(ForZkcl, segment, Judge(ForZkcl, OpOf(info), ProvinceOf(info)));
    var s6 := Shared(map[segment := info], [c, d]);
    assert Step(m, NOTHING, es[0]) == s1 && Step(m, s1, es[1]) == s2 && Step(m, s2, es[2]) == s3;
    assert Step(m, s3, es[3]) == s4 && Step(m, s4, es[4]) == s5 && Step(m, s5, es[5]) == s6;
    SixSteps(m, es, NOTHING, s1, s2, s3, s4, s5, s6);
    UnpackUndoesPack(op, p);
    PackedIsPlain(op, p);
    assert s6.clients[1].verdict != Uncached(ForZkcl, Locate(m, segment));
  }

  lemma PackedIsPlain(op: int, province: int)
    ensures OpOf(Pack(op, province)) >= 0 && ProvinceOf(Pack(op, province)) >= 0
  {
  }

  lemma SixSteps(m: Locator, es: seq<Event>,
                 s0: Shared, s1: Shared, s2: Shared, s3: Shared, s4: Shared, s5: Shared, s6: Shared)
    requires |es| == 6
    requires Enabled(s0, es[0]) && Step(m, s0, es[0]) == s1 && Enabled(s1, es[1]) && Step(m, s1, es[1]) == s2
    requires Enabled(s2, es[2]) && Step(m, s2, es[2]) == s3 && Enabled(s3, es[3]) && Step(m, s3, es[3]) == s4
    requires Enabled(s4, es[4]) && Step(m, s4, es[4]) == s5 && Enabled(s5, es[5]) && Step(m, s5, es[5]) == s6
    ensures Legal(m, s0, es) && After(m, s0, es) == s6
  {
    hide Step, Enabled;
    assert es[1..][1..] == es[2..] && es[2..][1..] == es[3..] && es[3..][1..] == es[4..];
    assert es[4..][1..] == es[5..] && es[5..][1..] == [];
    assert Legal(m, s6, []) && After(m, s6, []) == s6;
    assert Legal(m, s5, es[5..]) && After(m, s5, es[5..]) == s6;
    assert Legal(m, s4, es[4..]) && After(m, s4, es[4..]) == s6;
    assert Legal(m, s3, es[3..]) && After(m, s3, es[3..]) == s6;
    assert Legal(m, s2, es[2..]) && After(m, s2, es[2..]) == s6;
    assert Legal(m, s1, es[1..]) && After(m, s1, es[1..]) == s6;
  }

  /** The cache is invisible in every run exactly if every located segment fits in the byte. */
  lemma InvisibleExactly(m: Locator)
    ensures (forall es :: Legal(m, NOTHING, es) ==> AllRight(m, After(m, NOTHING, es))) <==> AllPackable(m)
  {
    hide Legal, After, AllRight;
    if AllPackable(m) {
      forall es | Legal(m, NOTHING, es) ensures AllRight(m, After(m, NOTHING, es)) {
        EveryVerdictIsRight(m, NOTHING, es);
      }
    } else {
      var s :| s in m && m[s].Located? && !Packable(m[s].op, m[s].province);
      SecondVerdictIsWrong(m, s);
    }
  }

  /** An answer that is not JSON counts as located at (-1, -1), and is remembered as (3, 62). */
  lemma UnparsablePoisons()
    ensures OpOf(Pack(-1, -1)) == 3 && ProvinceOf(Pack(-1, -1)) == 62
    ensures Judge(ForZkcl, -1, -1).found == None
    ensures Judge(ForZkcl, OpOf(Pack(-1, -1)), ProvinceOf(Pack(-1, -1))).found == Some((3, 62))
  {
  }

  // ---------- the file that is loaded first ----------

  // A line cut at its tabs, with the third field read as a number.
  datatype Line = Line(fields: seq<string>, op: int)

  /** A line that is used: three fields, a known province and operator 1 or 2. */
  predicate Usable(l: Line, provinces: map<string, int>) {
    |l.fields| == 3 && l.fields[1] in provinces && 1 <= l.op <= 2
  }

  predicate Tells(l: Line, provinces: map<string, int>, segment: string) {
    Usable(l, provinces) && l.fields[0] == segment
  }

  /** Line i is the first usable one for a segment. */
  predicate FirstLine(lines: seq<Line>, provinces: map<string, int>, segment: string, i: int) {
    && 0 <= i < |lines| && Tells(lines[i], provinces, segment)
    && forall j :: 0 <= j < i ==> !Tells(lines[j], provinces, segment)
  }

  /** The map holds just the segments that some line tells, each as its first line has it. */
  ghost predicate LoadedFrom(tscMap: map<string, int>, lines: seq<Line>, provinces: map<string, int>) {
    && (forall s :: s in tscMap <==> exists i :: 0 <= i < |lines| && Tells(lines[i], provinces, s))
    && (forall s, i :: FirstLine(lines, provinces, s, i) ==>
          s in tscMap && tscMap[s] == Pack(lines[i].op, provinces[lines[i].fields[1]]))
  }

  /** The same written out. */
  ghost predicate LoadedInFigures(tscMap: map<string, int>, lines: seq<Line>, provinces: map<string, int>) {
    && (forall s :: s in tscMap <==>
          exists i :: 0 <= i < |lines| && |lines[i].fields| == 3 && lines[i].fields[0] == s
                      && lines[i].fields[1] in provinces && (lines[i].op == 1 || lines[i].op == 2))
    && (forall i :: (0 <= i < |lines| && |lines[i].fields| == 3 && lines[i].fields[1] in provinces
                     && (lines[i].op == 1 || lines[i].op == 2) && 0 <= provinces[lines[i].fields[1]] < 64
                     && forall j :: 0 <= j < i && |lines[j].fields| == 3 ==> lines[j].fields[0] != lines[i].fields[0])
          ==> (lines[i].fields[0] in tscMap
               && tscMap[lines[i].fields[0]] == provinces[lines[i].fields[1]] * 4 + lines[i].op))
  }

  lemma LoadedSays(tscMap: map<string, int>, lines: seq<Line>, provinces: map<string, int>)
    requires LoadedFrom(tscMap, lines, provinces)
    ensures LoadedInFigures(tscMap, lines, provinces)
  {
    hide Pack;
    forall s
      ensures s in tscMap <==>
              exists i :: 0 <= i < |lines| && |lines[i].fields| == 3 && lines[i].fields[0] == s
                          && lines[i].fields[1] in provinces && (lines[i].op == 1 || lines[i].op == 2)
    {
      if s in tscMap {
        var i :| 0 <= i < |lines| && Tells(lines[i], provinces, s);
      }
      if i :| 0 <= i < |lines| && |lines[i].fields| == 3 && lines[i].fields[0] == s
              && lines[i].fields[1] in provinces && (lines[i].op == 1 || lines[i].op == 2) {
        assert Tells(lines[i], provinces, s);
      }
    }
    forall i | 0 <= i < |lines| && |lines[i].fields| == 3 && lines[i].fields[1] in provinces
      && (lines[i].op == 1 || lines[i].op == 2) && 0 <= provinces[lines[i].fields[1]] < 64
      && (forall j :: 0 <= j < i && |lines[j].fields| == 3 ==> lines[j].fields[0] != lines[i].fields[0])
      ensures lines[i].fields[0] in tscMap
              && tscMap[lines[i].fields[0]] == provinces[lines[i].fields[1]] * 4 + lines[i].op
    {
      assert FirstLine(lines, provinces, lines[i].fields[0], i);
      PackSays(lines[i].op, provinces[lines[i].fields[1]]);
    }
  }

  lemma PackSays(op: int, province: int)
    requires Packable(op, province)
    ensures Pack(op, province) == province * 4 + op
  {
  }

  class GlobalConfig {
    var tscMap: map<string, int>

    constructor ()
      ensures tscMap == map[]
    {
      tscMap := map[];
    }

    /** The first usable line for a segment wins. */
    method LoadTsc(lines: seq<Line>, provinces: map<string, int>)
      requires tscMap == map[]
      modifies this
      ensures LoadedFrom(tscMap, lines, provinces)
      ensures LoadedInFigures(tscMap, lines, provinces)
    {
      hide Pack, LoadedInFigures;
      for n := 0 to |lines|
        invariant forall s :: s in tscMap <==> exists i :: 0 <= i < n && Tells(lines[i], provinces, s)
        invariant forall s, i :: i < n && FirstLine(lines, provinces, s, i) ==>
                    s in tscMap && tscMap[s] == Pack(lines[i].op, provinces[lines[i].fields[1]])
      {
        if |lines[n].fields| != 3 {
          continue;
        }
        if lines[n].fields[1] in provinces {
          var op := lines[n].op;
          if op > 2 || op < 1 {
            continue;
          }
          var province := provinces[lines[n].fields[1]];
          tscMap := Insert(tscMap, lines[n].fields[0], Pack(op, province));
        }
      }
      LoadedSays(tscMap, lines, provinces);
    }

    /** Other clients: they insert what they looked up, and overwrite nothing. */
    method Others(m: Locator)
      requires Agrees(tscMap, m)
      modifies this
      ensures Agrees(tscMap, m) && Kept(old(tscMap), tscMap)
    {
    }

    method CheckTsc(phone: string, op: int, province: int, m: Locator) returns (ret: int)
      requires AllPackable(m) && Agrees(tscMap, m)
      modifies this
      ensures Agrees(tscMap, m) && Kept(old(tscMap), tscMap)
      ensures Verdict(ret, None) == Uncached(ForTmall(op, province), Locate(m, phone))
      ensures ret == if phone in m && m[phone] == Located(op, province) then 0 else 1
    {
      hide Pack, OpOf, ProvinceOf;
      if phone in tscMap {
        var info := tscMap[phone];
        var tOp, tProvince := OpOf(info), ProvinceOf(info);
        if op != tOp || province != tProvince {
          return 1;
        }
      } else {
        Others(m);
        match Locate(m, phone) {
          case NotLocated =>
            return 1;
          case Located(tOp, tProvince) =>
            Others(m);
            InsertAgrees(tscMap, m, phone, tOp, tProvince);
            tscMap := Insert(tscMap, phone, Pack(tOp, tProvince));
            if op != tOp || province != tProvince {
              return 1;
            } else {
              return 0;
            }
        }
      }
      return 0;
    }

    /** The first seven characters of the customer's number; `found` is what the order is given. */
    method CheckProduct(customer: string, m: Locator) returns (ret: int, found: Option<(int, int)>)
      requires AllPackable(m) && Agrees(tscMap, m)
      modifies this
      ensures Agrees(tscMap, m) && Kept(old(tscMap), tscMap)
      ensures Verdict(ret, found) == Uncached(ForZkcl, Locate(m, Segment(customer)))
      ensures var phone := if |customer| <= 7 then customer else customer[..7];
              if phone in m && m[phone].Located?
              then ret == 0 && found == Some((m[phone].op, m[phone].province))
              else ret == 2 && found == None
    {
      hide Pack, OpOf, ProvinceOf, AllPackable;
      ZkclSays(m, Segment(customer));
      var phone := Segment(customer);
      var tOp, tProvince := -1, -1;
      found := None;
      if phone in tscMap {
        var info := tscMap[phone];
        tOp, tProvince := OpOf(info), ProvinceOf(info);
      } else {
        Others(m);
        match Locate(m, phone) {
          case NotLocated =>
            return 2, None;
          case Located(op, province) =>
            Others(m);
            tOp, tProvince := op, province;
            InsertAgrees(tscMap, m, phone, tOp, tProvince);
            tscMap := Insert(tscMap, phone, Pack(tOp, tProvince));
        }
      }
      if tOp != -1 && tProvince != -1 {
        found := Some((tOp, tProvince));
      }
      return 0, found;
    }
  }

  /** In a locator that fits, every located segment tells the zkcl client its operator and province. */
  lemma ZkclSays(m: Locator, phone: string)
    requires AllPackable(m)
    ensures Uncached(ForZkcl, Locate(m, phone)) ==
            if phone in m && m[phone].Located? then Verdict(0, Some((m[phone].op, m[phone].province)))
            else Verdict(2, None)
  {
  }

  function Segment(customer: string): string {
    if |customer| <= 7 then customer else customer[..7]
  }

  /** If the file and the lookup agree on every line, so do the loaded map and the lookup. */
  lemma LoadedAgrees(lines: seq<Line>, provinces: map<string, int>, tscMap: map<string, int>, m: Locator)
    requires LoadedFrom(tscMap, lines, provinces)
    requires forall i :: 0 <= i < |lines| && Usable(lines[i], provinces) ==>
               Locate(m, lines[i].fields[0]) == Located(lines[i].op, provinces[lines[i].fields[1]])
    requires AllPackable(m)
    ensures Agrees(tscMap, m)
  {
    hide Pack, OpOf, ProvinceOf;
    forall s | s in tscMap ensures Locate(m, s) == Located(OpOf(tscMap[s]), ProvinceOf(tscMap[s])) {
      var i :| 0 <= i < |lines| && Tells(lines[i], provinces, s);
      var k := FirstTelling(lines, provinces, s, i);
      UnpackUndoesPack(lines[k].op, provinces[lines[k].fields[1]]);
    }
  }

  ghost function FirstTelling(lines: seq<Line>, provinces: map<string, int>, s: string, i: nat): (k: nat)
    requires i < |lines| && Tells(lines[i], provinces, s)
    ensures FirstLine(lines, provinces, s, k)
  {
    if j :| 0 <= j < i && Tells(lines[j], provinces, s) then FirstTelling(lines, provinces, s, j) else i
  }
}
