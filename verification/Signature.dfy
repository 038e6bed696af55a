/**
  src/HttpClient.cpp url_signature and src/TopupImpl.cpp CheckSign: keys and values of the sorted map,
  without "sign", and the private key behind them, go through MD5. MD5 itself is any function that
  yields 32 lower-case hex digits.
 */
module Signature {
  import opened CText
  import opened UrlCodec
  import opened Form

  predicate IsMd5Text(s: string) {
    |s| == 32 && forall i :: 0 <= i < 32 ==> '0' <= s[i] <= '9' || 'a' <= s[i] <= 'f'
  }

  type Digest = string -> string

  /** MD5 is any function to such texts; where a given one yields something else, it counts as zeros. */
  function Hash(md5: Digest, text: string): (h: string)
    ensures IsMd5Text(h)
  {
    if IsMd5Text(md5(text)) then md5(text) else seq(32, _ => '0')
  }

  const SIGN_BUFFER := 2048

  /** One entry's share of the signed text. */
  function Part(e: Pair): string {
    if e.key == "sign" then "" else e.key + e.value
  }

  function SignText(es: seq<Pair>): string {
    if es == [] then "" else Part(es[0]) + SignText(es[1..])
  }

  /** str2md5 leaves an empty text unhashed and its zeroed output as it is. */
  function Md5Of(text: string, md5: Digest): string {
    if text == "" then "" else Hash(md5, text)
  }

  function SignatureOf(es: seq<Pair>, privateKey: string, md5: Digest): string {
    Md5Of(SignText(es) + privateKey, md5)
  }

  /** What CheckSign decides about a filled map. */
  predicate Accepts(es: seq<Pair>, privateKey: string, md5: Digest) {
    && Find(es, "sign") != None && Find(es, "sign").value != ""
    && Find(es, "sign").value == SignatureOf(es, privateKey, md5)
  }

  // ---------- the signed text, by bytes and indices ----------

  /** Pair n is the first with its key. */
  predicate FirstOfKey(all: seq<Pair>, n: int) {
    0 <= n < |all| && forall m :: 0 <= m < n ==> all[m].key != all[n].key
  }

  /**
    The parameters that are signed: every key but "sign" once, with the value it is given first, in the
    byte order of the keys.
   */
  ghost predicate SignedList(ps: seq<Pair>, all: seq<Pair>) {
    && (forall i, j :: 0 <= i < j < |ps| ==> ByteLess(ps[i].key, ps[j].key))
    && (forall p :: p in ps ==> p.key != "sign" && exists n :: FirstOfKey(all, n) && all[n] == p)
    && (forall n :: 0 <= n < |all| && all[n].key != "sign" ==> exists p :: p in ps && p.key == all[n].key)
  }

  /** Their keys and values one after the other. */
  function InARow(ps: seq<Pair>): string {
    Join(seq(|ps|, i requires 0 <= i < |ps| => ps[i].key + ps[i].value), "")
  }

  lemma InARowOfCons(p: Pair, ps: seq<Pair>)
    ensures InARow([p] + ps) == p.key + p.value + InARow(ps)
  {
    var x := seq(|[p] + ps|, i requires 0 <= i < |[p] + ps| => ([p] + ps)[i].key + ([p] + ps)[i].value);
    var y := seq(|ps|, i requires 0 <= i < |ps| => ps[i].key + ps[i].value);
    assert x[1..] == y && x[0] == p.key + p.value;
    if ps == [] {
      assert x == [p.key + p.value] && y == [];
      assert p.key + p.value + "" == p.key + p.value;
    } else {
      assert x[0] + "" + Join(y, "") == x[0] + Join(y, "");
    }
  }

  function NotSign(es: seq<Pair>): seq<Pair> {
    if es == [] then [] else (if es[0].key == "sign" then [] else [es[0]]) + NotSign(es[1..])
  }

  lemma {:induction false} SignTextInARow(es: seq<Pair>)
    ensures SignText(es) == InARow(NotSign(es))
  {
    if es != [] {
      SignTextInARow(es[1..]);
      if es[0].key == "sign" {
        assert [] + NotSign(es[1..]) == NotSign(es[1..]);
        assert "" + SignText(es[1..]) == SignText(es[1..]);
      } else {
        InARowOfCons(es[0], NotSign(es[1..]));
      }
    }
  }

  lemma {:induction false} NotSignHolds(es: seq<Pair>, p: Pair)
    ensures p in NotSign(es) <==> p in es && p.key != "sign"
  {
    if es != [] {
      NotSignHolds(es[1..], p);
      assert es == [es[0]] + es[1..];
    }
  }

  lemma {:induction false} NotSignOrdered(es: seq<Pair>)
    requires Sorted(es)
    ensures forall i, j :: 0 <= i < j < |NotSign(es)| ==> Before(NotSign(es)[i].key, NotSign(es)[j].key)
  {
    if es != [] {
      var rest := NotSign(es[1..]);
      NotSignOrdered(es[1..]);
      if es[0].key != "sign" {
        assert NotSign(es) == [es[0]] + rest;
        forall j | 0 <= j < |rest| ensures Before(es[0].key, rest[j].key) {
          NotSignHolds(es[1..], rest[j]);
          FirstIsBefore(es, rest[j]);
        }
      } else {
        assert NotSign(es) == [] + rest == rest;
      }
    }
  }

  /** A pair of a sorted list is what its key is looked up to. */
  lemma {:induction false} SortedFinds(es: seq<Pair>, p: Pair)
    requires Sorted(es) && p in es
    ensures Find(es, p.key) == Some(p.value)
  {
    if es[0] != p {
      assert es == [es[0]] + es[1..];
      FirstIsBefore(es, p);
      BeforeIsStrict(es[0].key, p.key);
      SortedFinds(es[1..], p);
    }
  }

  lemma {:induction false} FindIsFirst(all: seq<Pair>, key: string) returns (n: nat)
    requires Find(all, key) != None
    ensures FirstOfKey(all, n) && all[n] == Pair(key, Find(all, key).value)
  {
    if all[0].key == key {
      n := 0;
    } else {
      var rest := all[1..];
      var k := FindIsFirst(rest, key);
      assert all[k + 1] == rest[k] && rest[k].key == key;
      forall m | 0 <= m < k + 1 ensures all[m].key != all[k + 1].key {
        if m > 0 {
          assert all[m] == rest[m - 1] && rest[m - 1].key != rest[k].key;
        }
      }
      n := k + 1;
    }
  }

  lemma {:induction false} FindsKey(all: seq<Pair>, n: nat)
    requires n < |all|
    ensures Find(all, all[n].key) != None
  {
    if all[0].key != all[n].key {
      FindsKey(all[1..], n - 1);
    }
  }

  /** So the signed text of a filled map is that of the signed list. */
  lemma SignedInOrder(all: seq<Pair>) returns (ps: seq<Pair>)
    ensures SignedList(ps, all) && SignText(InsertAll([], all)) == InARow(ps)
    ensures ps == NotSign(InsertAll([], all))
  {
    hide Sorted, InsertAll, SignText, NotSign, InARow, Find, ByteLess, Before;
    var es := InsertAll([], all);
    ps := NotSign(es);
    SortedEmpty();
    FilledIsSorted([], all);
    SignTextInARow(es);
    NotSignOrdered(es);
    forall i, j | 0 <= i < j < |ps| ensures ByteLess(ps[i].key, ps[j].key) {
      BeforeIsByteOrder(ps[i].key, ps[j].key);
    }
    forall p | p in ps ensures p.key != "sign" && exists n :: FirstOfKey(all, n) && all[n] == p {
      SignedIsFirst(all, p);
    }
    forall n | 0 <= n < |all| && all[n].key != "sign" ensures exists p :: p in ps && p.key == all[n].key {
      var p := FirstIsSigned(all, n);
    }
  }

  lemma SignedIsFirst(all: seq<Pair>, p: Pair)
    requires p in NotSign(InsertAll([], all))
    ensures p.key != "sign" && exists n :: FirstOfKey(all, n) && all[n] == p
  {
    hide Sorted, InsertAll, NotSign, Find, FirstOfKey;
    var es := InsertAll([], all);
    SortedEmpty();
    FilledIsSorted([], all);
    NotSignHolds(es, p);
    SortedFinds(es, p);
    LookedUp(all, p.key);
    var n := FindIsFirst(all, p.key);
    assert all[n] == p;
  }

  lemma FirstIsSigned(all: seq<Pair>, n: nat) returns (p: Pair)
    requires n < |all| && all[n].key != "sign"
    ensures p in NotSign(InsertAll([], all)) && p.key == all[n].key
  {
    hide InsertAll, NotSign, Find;
    var es := InsertAll([], all);
    FindsKey(all, n);
    LookedUp(all, all[n].key);
    FindIsMember(es, all[n].key);
    p := Pair(all[n].key, Find(es, all[n].key).value);
    NotSignHolds(es, p);
  }

  /** The first "sign" holds the digest of a text, which is not empty. */
  ghost predicate SignedBy(all: seq<Pair>, text: string, md5: Digest) {
    exists n :: FirstOfKey(all, n) && all[n].key == "sign" && all[n].value != ""
                && text != "" && all[n].value == Hash(md5, text)
  }

  /** What CheckSign decides about a filled map, by the list it was filled with. */
  lemma DecidesInOrder(all: seq<Pair>, privateKey: string, md5: Digest)
    ensures exists ps :: SignedList(ps, all)
              && (Accepts(InsertAll([], all), privateKey, md5) <==> SignedBy(all, InARow(ps) + privateKey, md5))
  {
    hide SignedList, InARow, SignText, InsertAll, IsMd5Text;
    var ps := SignedInOrder(all);
    LookedUp(all, "sign");
    if Find(all, "sign") != None {
      var n := FindIsFirst(all, "sign");
    }
    SignedByFound(all, InARow(ps) + privateKey, md5);
  }

  lemma SignedByFound(all: seq<Pair>, text: string, md5: Digest)
    ensures SignedBy(all, text, md5) <==>
            && Find(all, "sign") != None && Find(all, "sign").value != ""
            && text != "" && Find(all, "sign").value == Hash(md5, text)
  {
    if SignedBy(all, text, md5) {
      var n :| FirstOfKey(all, n) && all[n].key == "sign" && all[n].value != "" && all[n].value == Hash(md5, text);
      MapHoldsFirst(all, "sign", n);
    }
    if Find(all, "sign") != None {
      var n := FindIsFirst(all, "sign");
    }
  }

  lemma AcceptsInOrder(es: seq<Pair>, privateKey: string, md5: Digest)
    requires Sorted(es)
    ensures exists ps :: SignedList(ps, es)
              && (Accepts(es, privateKey, md5) <==> SignedBy(es, InARow(ps) + privateKey, md5))
  {
    InsertAllSorted(es);
    DecidesInOrder(es, privateKey, md5);
  }

  lemma LookedUp(all: seq<Pair>, key: string)
    ensures Find(InsertAll([], all), key) == Find(all, key)
  {
    hide InsertAll;
    SortedEmpty();
    FindInsertAll([], all, key);
    assert Find([], key) == None;
  }

  /** char signStr[2048] = {0} */
  method ZeroedBuffer() returns (buf: array<char>)
    ensures fresh(buf) && buf.Length == SIGN_BUFFER
  {
    buf := new char[SIGN_BUFFER](_ => NUL);
  }

  /** len += sprintf(buf + len, "%s", text) */
  method Append(buf: array<char>, len: nat, text: string) returns (n: nat)
    requires len + |text| < buf.Length
    modifies buf
    ensures n == len + |text| && buf[n] == NUL
    ensures buf[..n] == old(buf[..len]) + text
  {
    forall k | 0 <= k < |text| {
      buf[len + k] := text[k];
    }
    n := len + |text|;
    buf[n] := NUL;
  }

  lemma SignTextTurn(es: seq<Pair>, i: nat, done: string)
    requires i < |es| && SignText(es) == done + SignText(es[i..])
    ensures SignText(es) == done + Part(es[i]) + SignText(es[i + 1..])
    ensures |done + Part(es[i])| <= |SignText(es)|
  {
    assert es[i..][0] == es[i] && es[i..][1..] == es[i + 1..];
    Assoc(done, Part(es[i]), SignText(es[i + 1..]));
  }

  lemma SignTextEnd(es: seq<Pair>, done: string)
    requires SignText(es) == done + SignText(es[|es|..])
    ensures SignText(es) == done
  {
    assert done + "" == done;
  }

  method UrlSignature(url: string, privateKey: string, md5: Digest) returns (status: int, md5str: string)
    requires NUL !in url
    requires |url| <= MAX_QUERYSTRING ==> QueryFits(url) && |SignText(MapOf(url))| + |privateKey| < SIGN_BUFFER
    ensures status == if |url| > MAX_QUERYSTRING then 1 else 0
    ensures md5str == if status == 0 then SignatureOf(MapOf(url), privateKey, md5) else ""
    ensures status == if |url| > 2048 then 1 else 0
    ensures status == 0 ==>
              exists ps :: SignedList(ps, Pairs(url))
                           && md5str == if InARow(ps) + privateKey == "" then "" else Hash(md5, InARow(ps) + privateKey)
  {
    hide SignText, QueryFits, Pairs, Sorted, InsertAll, IsMd5Text, SignedList, InARow;
    ghost var ps := SignedInOrder(Pairs(url));
    var entitys := new FormData();
    var parsed := ParseParams(url, entitys);
    if !parsed {
      return 1, "";
    }
    var es := entitys.entries;
    var signStr := ZeroedBuffer();
    var len: nat := 0;
    var it: nat := 0;
    ghost var done := "";
    assert es[0..] == es && "" + SignText(es) == SignText(es);
    while it < |es|
      invariant it <= |es| && SignText(es) == done + SignText(es[it..])
      invariant len == |done| && signStr[..len] == done
      modifies signStr
    {
      SignTextTurn(es, it, done);
      if es[it].key != "sign" {
        len := Append(signStr, len, es[it].key + es[it].value);
      }
      done := done + Part(es[it]);
      it := it + 1;
    }
    SignTextEnd(es, done);
    len := Append(signStr, len, privateKey);
    return 0, Md5Of(signStr[..len], md5);
  }

  /** Past its own entry a key of a sorted map is not found again. */
  lemma FoundOnce(es: seq<Pair>)
    requires Sorted(es) && es != []
    ensures Find(es[1..], es[0].key) == None && Sorted(es[1..])
  {
    if |es| > 1 {
      AbsentBefore(es[1..], es[0].key);
    }
  }

  /** sign_str holds the value under "sign", if its entry has been passed. */
  predicate SignSoFar(es: seq<Pair>, it: nat, seen: bool, signText: string)
    requires it <= |es|
  {
    if seen then Find(es, "sign") == Some(signText) && Find(es[it..], "sign") == None
    else signText == "" && Find(es, "sign") == Find(es[it..], "sign")
  }

  lemma SignTurn(es: seq<Pair>, it: nat, seen: bool, signText: string)
    requires it < |es| && Sorted(es[it..]) && SignSoFar(es, it, seen, signText)
    ensures Sorted(es[it + 1..])
    ensures if es[it].key == "sign" then SignSoFar(es, it + 1, true, es[it].value)
            else SignSoFar(es, it + 1, seen, signText)
  {
    FoundOnce(es[it..]);
    assert es[it..][0] == es[it] && es[it..][1..] == es[it + 1..];
  }

  lemma SignEnd(es: seq<Pair>, seen: bool, signText: string)
    requires SignSoFar(es, |es|, seen, signText)
    ensures if seen then Find(es, "sign") == Some(signText) else signText == "" && Find(es, "sign") == None
  {
    assert es[|es|..] == [];
  }

  lemma SignStart(es: seq<Pair>)
    ensures es[0..] == es && "" + SignText(es[0..]) == SignText(es)
    ensures SignSoFar(es, 0, false, "")
  {
    assert es[0..] == es;
  }

  method CheckSign(mapEntitys: FormData, privateKey: string, md5: Digest) returns (ok: bool)
    requires mapEntitys.Valid()
    requires |SignText(mapEntitys.entries)| + |privateKey| < SIGN_BUFFER
    ensures ok <==> Accepts(mapEntitys.entries, privateKey, md5)
    ensures exists ps :: SignedList(ps, mapEntitys.entries)
                         && (ok <==> SignedBy(mapEntitys.entries, InARow(ps) + privateKey, md5))
  {
    hide SignText, IsMd5Text, Sorted, SignSoFar, Find, SignedList, InARow, SignedBy, InsertAll;
    var es := mapEntitys.entries;
    AcceptsInOrder(es, privateKey, md5);
    var signStr := ZeroedBuffer();
    var len: nat := 0;
    var it: nat := 0;
    var signText := "";
    ghost var done, seen := "", false;
    SignStart(es);
    while it < |es|
      invariant it <= |es| && SignText(es) == done + SignText(es[it..])
      invariant len == |done| && signStr[..len] == done
      invariant Sorted(es[it..]) && SignSoFar(es, it, seen, signText)
      modifies signStr
    {
      SignTextTurn(es, it, done);
      SignTurn(es, it, seen, signText);
      if es[it].key == "sign" {
        signText := es[it].value;
        seen := true;
      } else {
        len := Append(signStr, len, es[it].key + es[it].value);
      }
      done := done + Part(es[it]);
      it := it + 1;
    }
    SignTextEnd(es, done);
    SignEnd(es, seen, signText);
    len := Append(signStr, len, privateKey);
    var digest := Md5Of(signStr[..len], md5);
    if signText == "" {
      return false;
    }
    if signText != digest {
      return false;
    }
    return true;
  }

  // ---------- what the signature depends on ----------

  /** Two maps that agree on every key but "sign" are signed alike. */
  lemma {:induction false} SignTextIgnoresSign(es: seq<Pair>, fs: seq<Pair>)
    requires Sorted(es) && Sorted(fs)
    requires forall key :: key != "sign" ==> Find(es, key) == Find(fs, key)
    ensures SignText(es) == SignText(fs)
    decreases |es| + |fs|
  {
    if es != [] && es[0].key == "sign" {
      FoundOnce(es);
      forall key | key != "sign" ensures Find(es[1..], key) == Find(fs, key) {
        assert Find(es, key) == Find(fs, key);
      }
      SignTextIgnoresSign(es[1..], fs);
    } else if fs != [] && fs[0].key == "sign" {
      FoundOnce(fs);
      forall key | key != "sign" ensures Find(es, key) == Find(fs[1..], key) {
        assert Find(es, key) == Find(fs, key);
      }
      SignTextIgnoresSign(es, fs[1..]);
    } else if es != [] && fs != [] {
      SameFirstKey(es, fs);
      FoundOnce(es);
      FoundOnce(fs);
      assert Find(es, es[0].key) == Find(fs, es[0].key);
      forall key | key != "sign" ensures Find(es[1..], key) == Find(fs[1..], key) {
        assert Find(es, key) == Find(fs, key);
      }
      SignTextIgnoresSign(es[1..], fs[1..]);
    } else {
      assert es != [] ==> Find(es, es[0].key) == Find(fs, es[0].key);
      assert fs != [] ==> Find(es, fs[0].key) == Find(fs, fs[0].key);
    }
  }

  lemma SameFirstKey(es: seq<Pair>, fs: seq<Pair>)
    requires Sorted(es) && Sorted(fs) && es != [] && fs != []
    requires (Find(es, es[0].key) == None) == (Find(fs, es[0].key) == None)
    requires (Find(es, fs[0].key) == None) == (Find(fs, fs[0].key) == None)
    ensures es[0].key == fs[0].key
  {
    var e, f := es[0].key, fs[0].key;
    BeforeIsTotal(e, f);
    if Before(e, f) { AbsentBefore(fs, e); }
    if Before(f, e) { AbsentBefore(es, f); }
  }

  /** Two maps that differ in the value of one key, not "sign", are signed differently. */
  lemma {:induction false} SignTextShowsValue(es: seq<Pair>, fs: seq<Pair>, k: string)
    requires Sorted(es) && Sorted(fs) && k != "sign"
    requires forall key :: key != k ==> Find(es, key) == Find(fs, key)
    requires Find(es, k) != None && Find(fs, k) != None && Find(es, k) != Find(fs, k)
    ensures SignText(es) != SignText(fs)
  {
    assert Find(es, es[0].key) != None && Find(fs, fs[0].key) != None;
    assert es[0].key != k ==> Find(es, es[0].key) == Find(fs, es[0].key);
    assert fs[0].key != k ==> Find(es, fs[0].key) == Find(fs, fs[0].key);
    SameFirstKey(es, fs);
    FoundOnce(es);
    FoundOnce(fs);
    var e := es[0].key;
    forall key | key != k ensures Find(es[1..], key) == Find(fs[1..], key) {
      assert Find(es, key) == Find(fs, key);
    }
    if e == k {
      SortedIsDetermined(es[1..], fs[1..]);
      SumsDiffer(k, es[0].value, fs[0].value, SignText(es[1..]));
    } else {
      SignTextShowsValue(es[1..], fs[1..], k);
      CancelFront(Part(es[0]), SignText(es[1..]), SignText(fs[1..]));
    }
  }

  lemma CancelFront(a: string, x: string, y: string)
    requires x != y
    ensures a + x != a + y
  {
    assert (a + x)[|a|..] == x && (a + y)[|a|..] == y;
  }

  lemma SumsDiffer(k: string, v: string, w: string, rest: string)
    requires v != w
    ensures k + v + rest != k + w + rest
  {
    assert (k + v + rest)[|k|..][..|v|] == v && (k + w + rest)[|k|..][..|w|] == w;
  }

  /** Pairs with one key have one value. "sign" does not matter. */
  predicate Consistent(ps: seq<Pair>) {
    forall i, j :: 0 <= i < |ps| && 0 <= j < |ps| && ps[i].key == ps[j].key != "sign" ==> ps[i].value == ps[j].value
  }

  lemma {:induction false} FindIsMember(ps: seq<Pair>, key: string)
    ensures Find(ps, key) != None ==> Pair(key, Find(ps, key).value) in ps
    ensures Find(ps, key) == None ==> forall p :: p in ps ==> p.key != key
  {
    if ps != [] && ps[0].key != key {
      FindIsMember(ps[1..], key);
      assert ps == [ps[0]] + ps[1..];
    }
  }

  /** The signed text depends only on the set of pairs: same pairs, whatever their order and number. */
  lemma SignedBySet(ps: seq<Pair>, qs: seq<Pair>)
    requires Consistent(ps) && forall p :: p in ps <==> p in qs
    ensures SignText(InsertAll([], ps)) == SignText(InsertAll([], qs))
  {
    hide InsertAll, SignText, Sorted;
    forall key | key != "sign" ensures Find(InsertAll([], ps), key) == Find(InsertAll([], qs), key) {
      FindInsertAll([], ps, key);
      FindInsertAll([], qs, key);
      FindIsMember(ps, key);
      FindIsMember(qs, key);
      assert Find([], key) == None;
    }
    SortedEmpty();
    FilledIsSorted([], ps);
    FilledIsSorted([], qs);
    SignTextIgnoresSign(InsertAll([], ps), InsertAll([], qs));
  }

  lemma SortedEmpty()
    ensures Sorted([])
  {
  }

  function ToFront(ps: seq<Pair>, i: nat): seq<Pair>
    requires i < |ps|
  {
    [ps[i]] + ps[..i] + ps[i + 1..]
  }

  lemma {:induction false} FindSum(x: seq<Pair>, y: seq<Pair>, key: string)
    ensures Find(x + y, key) == if Find(x, key) != None then Find(x, key) else Find(y, key)
  {
    if x == [] {
      assert x + y == y;
    } else {
      assert (x + y)[1..] == x[1..] + y;
      FindSum(x[1..], y, key);
    }
  }

  lemma FindToFront(ps: seq<Pair>, i: nat, key: string)
    requires i < |ps|
    ensures Find(ToFront(ps, i), key) == if key == ps[i].key then Some(ps[i].value) else Find(ps, key)
  {
    var p, a, b := [ps[i]], ps[..i], ps[i + 1..];
    assert ps == a + p + b;
    FindSum(p + a, b, key);
    FindSum(p, a, key);
    FindSum(a + p, b, key);
    FindSum(a, p, key);
    assert p[1..] == [];
  }

  ghost predicate OrderIrrelevant(ps: seq<Pair>) {
    forall qs: seq<Pair> :: multiset(qs) == multiset(ps) ==> SignText(InsertAll([], qs)) == SignText(InsertAll([], ps))
  }

  lemma ConflictShows(ps: seq<Pair>, i: nat, j: nat)
    requires i < |ps| && j < |ps| && ps[i].key == ps[j].key != "sign" && ps[i].value != ps[j].value
    ensures SignText(InsertAll([], ToFront(ps, i))) != SignText(InsertAll([], ToFront(ps, j)))
  {
    hide InsertAll, SignText, ToFront;
    var x, y := ToFront(ps, i), ToFront(ps, j);
    forall key
      ensures Find(InsertAll([], x), key) == Find(x, key)
      ensures Find(InsertAll([], y), key) == Find(y, key)
      ensures key != ps[i].key ==> Find(InsertAll([], x), key) == Find(InsertAll([], y), key)
    {
      FindInsertAll([], x, key);
      FindInsertAll([], y, key);
      FindToFront(ps, i, key);
      FindToFront(ps, j, key);
    }
    FindToFront(ps, i, ps[i].key);
    FindToFront(ps, j, ps[i].key);
    FilledIsSorted([], x);
    FilledIsSorted([], y);
    SignTextShowsValue(InsertAll([], x), InsertAll([], y), ps[i].key);
  }

  /** Reordering a query never changes its signature exactly when no key but "sign" is given two values. */
  lemma OrderIrrelevantExactly(ps: seq<Pair>)
    ensures OrderIrrelevant(ps) <==> Consistent(ps)
  {
    hide InsertAll, SignText;
    if Consistent(ps) {
      forall qs: seq<Pair> | multiset(qs) == multiset(ps)
        ensures SignText(InsertAll([], qs)) == SignText(InsertAll([], ps))
      {
        forall p ensures p in ps <==> p in qs { assert p in multiset(ps) <==> p in multiset(qs); }
        SignedBySet(ps, qs);
      }
    } else {
      var i: nat, j: nat :| i < |ps| && j < |ps| && ps[i].key == ps[j].key != "sign" && ps[i].value != ps[j].value;
      ConflictShows(ps, i, j);
      ToFrontPermutes(ps, i);
      ToFrontPermutes(ps, j);
    }
  }

  lemma ToFrontPermutes(ps: seq<Pair>, i: nat)
    requires i < |ps|
    ensures multiset(ToFront(ps, i)) == multiset(ps)
  {
    assert ps == ps[..i] + [ps[i]] + ps[i + 1..];
  }

  // ---------- signing and checking ----------

  lemma SignatureShape(es: seq<Pair>, privateKey: string, md5: Digest)
    requires privateKey != ""
    ensures IsMd5Text(SignatureOf(es, privateKey, md5))
  {
    assert IsMd5Text(Hash(md5, SignText(es) + privateKey));
  }

  /** The signature as a parameter of its own. */
  function SignPair(sig: string): Pair {
    Pair("sign", sig)
  }

  /** Adding the signature to a query, at any place, makes it acceptable to CheckSign. */
  lemma SignedPairsAccepted(ps: seq<Pair>, i: nat, privateKey: string, md5: Digest)
    requires i <= |ps| && Find(ps, "sign") == None && privateKey != ""
    ensures var sig := SignatureOf(InsertAll([], ps), privateKey, md5);
            Accepts(InsertAll([], ps[..i] + [SignPair(sig)] + ps[i..]), privateKey, md5)
  {
    hide InsertAll, SignText, Sorted;
    var sig := SignatureOf(InsertAll([], ps), privateKey, md5);
    var qs := ps[..i] + [SignPair(sig)] + ps[i..];
    forall key
      ensures Find(InsertAll([], qs), key) == if key == "sign" then Some(sig) else Find(InsertAll([], ps), key)
    {
      FindInsertAll([], ps, key);
      FindInsertAll([], qs, key);
      FindSigned(ps, i, sig, key);
    }
    SortedEmpty();
    FilledIsSorted([], ps);
    FilledIsSorted([], qs);
    SignTextIgnoresSign(InsertAll([], ps), InsertAll([], qs));
    SignatureShape(InsertAll([], ps), privateKey, md5);
  }

  lemma FindSigned(ps: seq<Pair>, i: nat, sig: string, key: string)
    requires i <= |ps| && Find(ps, "sign") == None
    ensures Find(ps[..i] + [SignPair(sig)] + ps[i..], key) == if key == "sign" then Some(sig) else Find(ps, key)
  {
    var a, s, b := ps[..i], [SignPair(sig)], ps[i..];
    assert ps == a + b;
    assert s[1..] == [];
    FindSum(a + s, b, key);
    FindSum(a, s, key);
    FindSum(a, b, key);
  }

  /** The same of query strings: "sign=" and the signature may stand anywhere among the segments. */
  lemma SignedQueryAccepted(segs: seq<string>, i: nat, privateKey: string, md5: Digest)
    requires segs != [] && i <= |segs| && forall k :: 0 <= k < |segs| ==> '&' !in segs[k]
    requires Find(PairsOf(segs), "sign") == None && privateKey != ""
    ensures var sig := SignatureOf(MapOf(Join(segs, "&")), privateKey, md5);
            Accepts(MapOf(Join(segs[..i] + ["sign=" + sig] + segs[i..], "&")), privateKey, md5)
  {
    hide InsertAll, SignText, Sorted, PairsOf, Segments, Join, Find, IsMd5Text, Accepts, SignatureOf;
    var sig := SignatureOf(MapOf(Join(segs, "&")), privateKey, md5);
    SignatureShape(MapOf(Join(segs, "&")), privateKey, md5);
    SegmentsOfJoin(segs);
    var n := SignedSegments(segs, i, sig);
    SignedPairsAccepted(PairsOf(segs), n, privateKey, md5);
  }

  /** Putting the signature among the segments puts its pair among the pairs. */
  lemma SignedSegments(segs: seq<string>, i: nat, sig: string) returns (n: nat)
    requires i <= |segs| && forall k :: 0 <= k < |segs| ==> '&' !in segs[k]
    requires IsMd5Text(sig)
    ensures n <= |PairsOf(segs)|
    ensures Pairs(Join(segs[..i] + ["sign=" + sig] + segs[i..], "&"))
            == PairsOf(segs)[..n] + [SignPair(sig)] + PairsOf(segs)[n..]
  {
    hide PairsOf, Segments, Join, IsMd5Text;
    var a, s, b := segs[..i], ["sign=" + sig], segs[i..];
    n := |PairsOf(a)|;
    SignSegment(sig);
    assert segs == a + b;
    forall k | 0 <= k < |a + s + b| ensures '&' !in (a + s + b)[k] {
      assert (a + s + b)[k] == if k < i then segs[k] else if k == i then "sign=" + sig else segs[k - 1];
    }
    SegmentsOfJoin(a + s + b);
    PairsOfSum(a, b);
    PairsOfSum(a + s, b);
    PairsOfSum(a, s);
    assert (PairsOf(a) + PairsOf(b))[..n] == PairsOf(a) && (PairsOf(a) + PairsOf(b))[n..] == PairsOf(b);
  }

  /** A signature is its own encoding. */
  lemma SignSegment(sig: string)
    requires IsMd5Text(sig)
    ensures '&' !in "sign=" + sig
    ensures PairsOf(["sign=" + sig]) == [SignPair(sig)]
  {
    DecodeFixesExactly(sig);
    ValueOfPlain(sig);
    OnePair("sign", sig);
    assert "sign" + "=" + sig == "sign=" + sig;
    SingleSegment("sign=" + sig);
  }
}
