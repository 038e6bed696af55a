/**
  src/HttpClient.cpp, parse_query: the same walk over a query string as parse_params, but each pair
  is stored in a field of QsInfo, so the last occurrence wins and two keys can name one field.
  cardNum and sum keep the text that atoi and atof are given.
 */
module QueryFields {
  import opened CText
  import opened UrlCodec
  import opened Form

  datatype Field =
    | CoopId | TbOrderNo | CardId | CardNum | Customer | Sum | TbOrderSnap | NotifyUrl | Sign | Version

  /** The field a key is stored in. */
  function FieldOf(key: string): Option<Field> {
    if key == "coopId" || key == "userId" then Some(CoopId)
    else if key == "tbOrderNo" || key == "orderNo" then Some(TbOrderNo)
    else if key == "cardId" then Some(CardId)
    else if key == "cardNum" then Some(CardNum)
    else if key == "customer" then Some(Customer)
    else if key == "sum" then Some(Sum)
    else if key == "tbOrderSnap" then Some(TbOrderSnap)
    else if key == "notifyUrl" then Some(NotifyUrl)
    else if key == "sign" then Some(Sign)
    else if key == "version" then Some(Version)
    else None
  }

  /** The value of the last pair stored in a field, or what was there before. */
  function LastStored(ps: seq<Pair>, f: Field, before: string): string
  {
    if ps == [] then before
    else if FieldOf(ps[|ps| - 1].key) == Some(f) then ps[|ps| - 1].value
    else LastStored(ps[..|ps| - 1], f, before)
  }

  lemma {:induction false} LastStoredSum(x: seq<Pair>, y: seq<Pair>, f: Field, before: string)
    ensures LastStored(x + y, f, before) == LastStored(y, f, LastStored(x, f, before))
  {
    if y == [] {
      assert x + y == x;
    } else {
      var n := |x + y| - 1;
      assert (x + y)[n] == y[|y| - 1] && (x + y)[..n] == x + y[..|y| - 1];
      LastStoredSum(x, y[..|y| - 1], f, before);
    }
  }

  class QsInfo {
    var coopId: string
    var tbOrderNo: string
    var cardId: string
    var cardNum: string
    var customer: string
    var sum: string
    var tbOrderSnap: string
    var notifyUrl: string
    var sign: string
    var version: string

    function Get(f: Field): string
      reads this
    {
      match f
      case CoopId => coopId
      case TbOrderNo => tbOrderNo
      case CardId => cardId
      case CardNum => cardNum
      case Customer => customer
      case Sum => sum
      case TbOrderSnap => tbOrderSnap
      case NotifyUrl => notifyUrl
      case Sign => sign
      case Version => version
    }

    /** The chain of strcmp tests. */
    method Assign(key: string, value: string)
      modifies this
      ensures forall f :: Get(f) == if FieldOf(key) == Some(f) then value else old(Get(f))
    {
      if key == "coopId" || key == "userId" {
        coopId := value;
      } else if key == "tbOrderNo" || key == "orderNo" {
        tbOrderNo := value;
      } else if key == "cardId" {
        cardId := value;
      } else if key == "cardNum" {
        cardNum := value;
      } else if key == "customer" {
        customer := value;
      } else if key == "sum" {
        sum := value;
      } else if key == "tbOrderSnap" {
        tbOrderSnap := value;
      } else if key == "notifyUrl" {
        notifyUrl := value;
      } else if key == "sign" {
        sign := value;
      } else if key == "version" {
        version := value;
      }
    }
  }

  /** parse_pair, and the assignment behind it when it succeeds. */
  method AssignPair(pair: string, key: array<char>, value: array<char>, info: QsInfo)
    requires NUL !in pair && SegmentFits(pair)
    requires key != value && key.Length == MAX_KLEN && value.Length == MAX_VLEN
    modifies key, value, info
    ensures forall f :: info.Get(f) == LastStored(PairsOf([pair]), f, old(info.Get(f)))
  {
    var found := ParsePair(pair, key, value);
    assert PairsOf([pair][1..]) == [];
    if found {
      ghost var p := PairOf(pair).value;
      info.Assign(CStr(key[..]), CStr(value[..]));
      assert PairsOf([pair]) == [p];
      assert [p][..0] == [];
    }
  }

  /** The value of the last pair with the key or its alias, or what was there before. */
  function LastOf(ps: seq<Pair>, key: string, alias: string, before: string): string {
    if ps == [] then before
    else if ps[|ps| - 1].key == key || ps[|ps| - 1].key == alias then ps[|ps| - 1].value
    else LastOf(ps[..|ps| - 1], key, alias, before)
  }

  /** No other key names the field. */
  lemma {:induction false} StoredUnder(ps: seq<Pair>, f: Field, key: string, alias: string, before: string)
    requires forall k :: FieldOf(k) == Some(f) <==> k == key || k == alias
    ensures LastStored(ps, f, before) == LastOf(ps, key, alias, before)
  {
    if ps != [] {
      StoredUnder(ps[..|ps| - 1], f, key, alias, before);
    }
  }

  lemma FieldsByKey()
    ensures forall k :: FieldOf(k) == Some(CoopId) <==> k == "coopId" || k == "userId"
    ensures forall k :: FieldOf(k) == Some(TbOrderNo) <==> k == "tbOrderNo" || k == "orderNo"
    ensures forall k :: FieldOf(k) == Some(CardId) <==> k == "cardId" || k == "cardId"
    ensures forall k :: FieldOf(k) == Some(CardNum) <==> k == "cardNum" || k == "cardNum"
    ensures forall k :: FieldOf(k) == Some(Customer) <==> k == "customer" || k == "customer"
    ensures forall k :: FieldOf(k) == Some(Sum) <==> k == "sum" || k == "sum"
    ensures forall k :: FieldOf(k) == Some(TbOrderSnap) <==> k == "tbOrderSnap" || k == "tbOrderSnap"
    ensures forall k :: FieldOf(k) == Some(NotifyUrl) <==> k == "notifyUrl" || k == "notifyUrl"
    ensures forall k :: FieldOf(k) == Some(Sign) <==> k == "sign" || k == "sign"
    ensures forall k :: FieldOf(k) == Some(Version) <==> k == "version" || k == "version"
  {
  }

  method ParseQuery(query: string, info: QsInfo) returns (ok: bool)
    requires NUL !in query
    requires |query| <= MAX_QUERYSTRING ==> QueryFits(query)
    modifies info
    ensures ok <==> |query| <= 2048
    ensures ok ==>
              var ps := Pairs(query);
              && info.coopId == LastOf(ps, "coopId", "userId", old(info.coopId))
              && info.tbOrderNo == LastOf(ps, "tbOrderNo", "orderNo", old(info.tbOrderNo))
              && info.cardId == LastOf(ps, "cardId", "cardId", old(info.cardId))
              && info.cardNum == LastOf(ps, "cardNum", "cardNum", old(info.cardNum))
              && info.customer == LastOf(ps, "customer", "customer", old(info.customer))
              && info.sum == LastOf(ps, "sum", "sum", old(info.sum))
              && info.tbOrderSnap == LastOf(ps, "tbOrderSnap", "tbOrderSnap", old(info.tbOrderSnap))
              && info.notifyUrl == LastOf(ps, "notifyUrl", "notifyUrl", old(info.notifyUrl))
              && info.sign == LastOf(ps, "sign", "sign", old(info.sign))
              && info.version == LastOf(ps, "version", "version", old(info.version))
    ensures forall f :: info.Get(f) == if ok then LastStored(Pairs(query), f, old(info.Get(f))) else old(info.Get(f))
  {
    hide PairsOf, Segments, LastStored, IndexOf, AllFit, FieldOf, LastOf, Pairs;
    ok := FillFields(query, info);
    if ok {
      ghost var ps := Pairs(query);
      FieldsByKey();
      StoredUnder(ps, CoopId, "coopId", "userId", old(info.Get(CoopId)));
      StoredUnder(ps, TbOrderNo, "tbOrderNo", "orderNo", old(info.Get(TbOrderNo)));
      StoredUnder(ps, CardId, "cardId", "cardId", old(info.Get(CardId)));
      StoredUnder(ps, CardNum, "cardNum", "cardNum", old(info.Get(CardNum)));
      StoredUnder(ps, Customer, "customer", "customer", old(info.Get(Customer)));
      StoredUnder(ps, Sum, "sum", "sum", old(info.Get(Sum)));
      StoredUnder(ps, TbOrderSnap, "tbOrderSnap", "tbOrderSnap", old(info.Get(TbOrderSnap)));
      StoredUnder(ps, NotifyUrl, "notifyUrl", "notifyUrl", old(info.Get(NotifyUrl)));
      StoredUnder(ps, Sign, "sign", "sign", old(info.Get(Sign)));
      StoredUnder(ps, Version, "version", "version", old(info.Get(Version)));
    }
  }

  /** The walk over the query. */
  method FillFields(query: string, info: QsInfo) returns (ok: bool)
    requires NUL !in query
    requires |query| <= MAX_QUERYSTRING ==> QueryFits(query)
    modifies info
    ensures ok <==> |query| <= MAX_QUERYSTRING
    ensures forall f :: info.Get(f) == if ok then LastStored(Pairs(query), f, old(info.Get(f))) else old(info.Get(f))
  {
    hide PairsOf, Segments, LastStored, IndexOf, Walking, Holds, AllFit;
    if |query| > MAX_QUERYSTRING {
      return false;
    }
    var params := LocalCopy(query);
    var key := new char[MAX_KLEN];
    var value := new char[MAX_VLEN];
    var pr: nat := 0;
    ghost var done, rest := [], query;
    WalkingStart(query);
    forall f ensures LastStored([], f, info.Get(f)) == info.Get(f) { NothingStored(f, info.Get(f)); }
    while true
      invariant Holds(params[..], pr, rest) && Walking(query, done, rest)
      invariant forall f :: info.Get(f) == LastStored(done, f, old(info.Get(f)))
      modifies params, key, value, info
      decreases |rest|
    {
      WalkingTurn(query, done, rest);
      var text := ReadText(params, pr, rest);
      var str := IndexOf(text, '&');
      ghost var now := PairsOf([rest[..str]]);
      forall f ensures LastStored(done + now, f, old(info.Get(f))) == LastStored(now, f, info.Get(f)) {
        LastStoredSum(done, now, f, old(info.Get(f)));
      }
      if str == |text| {
        AssignPair(text, key, value, info);
        break;
      }
      text := CutAt(params, pr, rest, str);
      AssignPair(text, key, value, info);
      pr := pr + |text| + 1;
      done := done + now;
      rest := rest[str + 1..];
    }
    return true;
  }

  lemma NothingStored(f: Field, before: string)
    ensures LastStored([], f, before) == before
  {
  }

  // ---------- the two parsers against each other ----------

  /** No two pairs are stored in the field. */
  predicate StoredOnce(ps: seq<Pair>, f: Field) {
    forall i, j :: 0 <= i < j < |ps| && FieldOf(ps[i].key) == Some(f) ==> FieldOf(ps[j].key) != Some(f)
  }

  /** A field holds the last pair stored in it. */
  lemma {:induction false} FieldHoldsLast(ps: seq<Pair>, f: Field, before: string, i: nat)
    requires i < |ps| && FieldOf(ps[i].key) == Some(f) && forall j :: i < j < |ps| ==> FieldOf(ps[j].key) != Some(f)
    ensures LastStored(ps, f, before) == ps[i].value
  {
    if i < |ps| - 1 {
      FieldHoldsLast(ps[..|ps| - 1], f, before, i);
    }
  }

  /** The two parsers agree on a field exactly if its first pair under that key and its last pair have one value. */
  lemma ParsersAgreeExactly(ps: seq<Pair>, key: string, f: Field, before: string, first: nat, last: nat)
    requires first < |ps| && ps[first].key == key && forall j :: 0 <= j < first ==> ps[j].key != key
    requires last < |ps| && FieldOf(ps[last].key) == Some(f)
    requires forall j :: last < j < |ps| ==> FieldOf(ps[j].key) != Some(f)
    ensures Some(LastStored(ps, f, before)) == Find(ps, key) <==> ps[first].value == ps[last].value
  {
    MapHoldsFirst(ps, key, first);
    FieldHoldsLast(ps, f, before, last);
  }

  /** A key that is not there itself has no entry in the map, though an alias of it may set the field. */
  lemma {:induction false} AbsentKey(ps: seq<Pair>, key: string)
    requires forall j :: 0 <= j < |ps| ==> ps[j].key != key
    ensures Find(ps, key) == None
  {
    if ps != [] {
      forall j | 0 <= j < |ps[1..]| ensures ps[1..][j].key != key {
        assert ps[1..][j] == ps[j + 1];
      }
      AbsentKey(ps[1..], key);
    }
  }

  /** With only the alias the parsers disagree: the field holds the alias's last value, the map has no entry. */
  lemma AliasAlone(ps: seq<Pair>, key: string, f: Field, before: string, last: nat)
    requires forall j :: 0 <= j < |ps| ==> ps[j].key != key
    requires last < |ps| && FieldOf(ps[last].key) == Some(f)
    requires forall j :: last < j < |ps| ==> FieldOf(ps[j].key) != Some(f)
    ensures Find(ps, key) == None && LastStored(ps, f, before) == ps[last].value
  {
    AbsentKey(ps, key);
    FieldHoldsLast(ps, f, before, last);
  }

  /** With neither, the field is as it was, and the map has no entry. */
  lemma {:induction false} NothingStoredIn(ps: seq<Pair>, f: Field, before: string)
    requires forall j :: 0 <= j < |ps| ==> FieldOf(ps[j].key) != Some(f)
    ensures LastStored(ps, f, before) == before
    ensures forall key :: FieldOf(key) == Some(f) ==> Find(ps, key) == None
  {
    if ps != [] {
      NothingStoredIn(ps[..|ps| - 1], f, before);
    }
    forall key | FieldOf(key) == Some(f) ensures Find(ps, key) == None {
      AbsentKey(ps, key);
    }
  }

  lemma {:induction false} FoundSomewhere(ps: seq<Pair>, key: string) returns (i: nat)
    requires Find(ps, key) != None
    ensures i < |ps| && ps[i].key == key
  {
    if ps[0].key == key {
      i := 0;
    } else {
      i := FoundSomewhere(ps[1..], key);
      i := i + 1;
    }
  }

  /** Where a key or its alias occurs once, the field holds what the map holds under that key. */
  lemma ParsersAgree(ps: seq<Pair>, key: string, f: Field, before: string)
    requires FieldOf(key) == Some(f) && Find(ps, key) != None && StoredOnce(ps, f)
    ensures Some(LastStored(ps, f, before)) == Find(ps, key)
  {
    var i := FoundSomewhere(ps, key);
    ParsersAgreeExactly(ps, key, f, before, i, i);
  }
}
