/**
  src/TopupUtils.h, split_string: cuts a C string in its buffer, at every separator from the left.
 */
module Fields {
  import opened CText

  predicate At(t: string, sep: string, k: int) {
    0 <= k <= k + |sep| <= |t| && t[k..k + |sep|] == sep
  }

  /** The position strstr finds, or the length when it finds nothing. */
  function First(t: string, sep: string): (k: nat)
    requires sep != ""
    ensures k <= |t| && (k < |t| ==> k + |sep| <= |t| && At(t, sep, k)) && forall j :: 0 <= j < k ==> !At(t, sep, j)
  {
    if t == "" || At(t, sep, 0) then 0
    else
      var k := First(t[1..], sep);
      AtShifts(t, sep);
      k + 1
  }

  lemma AtShifts(t: string, sep: string)
    requires t != ""
    ensures forall j :: 1 <= j <= |t| ==> (At(t, sep, j) <==> At(t[1..], sep, j - 1))
  {
    forall j | 1 <= j <= |t| ensures At(t, sep, j) <==> At(t[1..], sep, j - 1) {
      if j + |sep| <= |t| {
        SliceOfTail(t, j, j + |sep|);
      }
    }
  }

  lemma SliceOfTail(t: string, i: nat, j: nat)
    requires 1 <= i <= j <= |t|
    ensures t[1..][i - 1..j - 1] == t[i..j]
  {
  }

  lemma FirstIs(t: string, sep: string, k: nat)
    requires sep != "" && k <= |t| && (k < |t| ==> At(t, sep, k)) && forall j :: 0 <= j < k ==> !At(t, sep, j)
    ensures First(t, sep) == k
  {
  }

  /** The fields of a text. */
  function Split(t: string, sep: string): (fields: seq<string>)
    requires sep != ""
    ensures fields != []
    decreases |t|
  {
    var k := First(t, sep);
    if k == |t| then [t] else [t[..k]] + Split(t[k + |sep|..], sep)
  }

  /** The separator occurs nowhere in a text. */
  predicate Free(t: string, sep: string) {
    forall j :: 0 <= j <= |t| ==> !At(t, sep, j)
  }

  lemma PrefixIsFree(t: string, sep: string, k: nat)
    requires sep != "" && k <= |t| && forall j :: 0 <= j < k ==> !At(t, sep, j)
    ensures Free(t[..k], sep)
  {
    forall j | 0 <= j <= k ensures !At(t[..k], sep, j) {
      if j + |sep| <= k {
        assert t[..k][j..j + |sep|] == t[j..j + |sep|];
        assert !At(t, sep, j);
      }
    }
  }

  /** No field contains the separator, and joined again they give the text. */
  lemma {:induction false} JoinUndoesSplit(t: string, sep: string)
    requires sep != ""
    ensures Join(Split(t, sep), sep) == t
    ensures forall i :: 0 <= i < |Split(t, sep)| ==> Free(Split(t, sep)[i], sep)
    ensures forall f, a, b :: f in Split(t, sep) ==> f != a + sep + b
    decreases |t|
  {
    hide Free, At, First, Join;
    var k := First(t, sep);
    PrefixIsFree(t, sep, k);
    if k < |t| {
      var rest := t[k + |sep|..];
      JoinUndoesSplit(rest, sep);
      CutText(t, sep, k);
      JoinOneMore(t[..k], Split(rest, sep), sep);
    } else {
      assert t[..k] == t;
      JoinOne(t, sep);
    }
    forall f, a, b | f in Split(t, sep) ensures f != a + sep + b {
      var i :| 0 <= i < |Split(t, sep)| && Split(t, sep)[i] == f;
      FreeSays(f, sep, a, b);
    }
  }

  lemma FreeSays(f: string, sep: string, a: string, b: string)
    requires Free(f, sep)
    ensures f != a + sep + b
  {
    var t := a + sep + b;
    assert t[|a|..|a| + |sep|] == sep;
    assert At(t, sep, |a|);
  }

  /** A text is what is in front of a separator, the separator and what is behind it. */
  lemma CutText(t: string, sep: string, k: nat)
    requires At(t, sep, k)
    ensures k + |sep| <= |t| && t == t[..k] + sep + t[k + |sep|..]
  {
    assert t == t[..k] + t[k..k + |sep|] + t[k + |sep|..];
  }

  lemma JoinOneMore(f: string, fields: seq<string>, sep: string)
    requires fields != []
    ensures Join([f] + fields, sep) == f + sep + Join(fields, sep)
  {
    assert ([f] + fields)[1..] == fields;
  }

  lemma JoinOne(f: string, sep: string)
    ensures Join([f], sep) == f
  {
  }

  /** A field after which the separator is found where it was put. */
  predicate EndsWell(f: string, sep: string)
    requires sep != ""
  {
    First(f + sep, sep) == |f|
  }

  ghost predicate AllEndWell(fields: seq<string>, sep: string)
    requires sep != "" && fields != []
  {
    && (forall i :: 0 <= i < |fields| - 1 ==> EndsWell(fields[i], sep))
    && Free(fields[|fields| - 1], sep)
  }

  /** What comes after a separator does not matter for finding it. */
  lemma FirstIgnoresTail(f: string, sep: string, tail: string)
    requires sep != ""
    ensures First(f + sep + tail, sep) == First(f + sep, sep)
  {
    var s, t := f + sep, f + sep + tail;
    forall j | 0 <= j <= |f| ensures At(t, sep, j) <==> At(s, sep, j) {
      assert t[j..j + |sep|] == s[j..j + |sep|];
    }
    assert s[|f|..|f| + |sep|] == sep;
    assert At(s, sep, |f|);
    assert First(s, sep) <= |f|;
    FirstIs(t, sep, First(s, sep));
  }

  /**
    Splitting a join gives back the fields exactly if each field but the last ends well and the last
    does not contain the separator.
   */
  lemma {:induction false} SplitUndoesJoinExactly(fields: seq<string>, sep: string)
    requires sep != "" && fields != []
    ensures Split(Join(fields, sep), sep) == fields <==> AllEndWell(fields, sep)
    decreases |fields|
  {
    hide First, EndsWell, At, Free, Split, Join;
    if |fields| == 1 {
      assert fields == [fields[0]];
      JoinOne(fields[0], sep);
      LastAlone(fields[0], sep);
    } else {
      SplitUndoesJoinExactly(fields[1..], sep);
      FirstOfMany(fields, sep);
      assert AllEndWell(fields, sep) <==> EndsWell(fields[0], sep) && AllEndWell(fields[1..], sep) by {
        assert fields[1..][|fields| - 2] == fields[|fields| - 1];
        forall i | 0 < i < |fields| - 1 ensures fields[i] == fields[1..][i - 1] {
        }
      }
    }
  }

  lemma LastAlone(f: string, sep: string)
    requires sep != ""
    ensures Split(f, sep) == [f] <==> Free(f, sep)
  {
    var k := First(f, sep);
    if k < |f| {
      assert At(f, sep, k);
      assert Split(f, sep)[0] == f[..k];
    }
  }

  lemma FirstOfMany(fields: seq<string>, sep: string)
    requires sep != "" && |fields| > 1
    ensures Split(Join(fields, sep), sep) == fields <==>
            EndsWell(fields[0], sep) && Split(Join(fields[1..], sep), sep) == fields[1..]
  {
    var f, tail := fields[0], Join(fields[1..], sep);
    var t := Join(fields, sep);
    assert t == f + sep + tail;
    FirstIgnoresTail(f, sep, tail);
    var k := First(t, sep);
    assert (f + sep)[|f|..|f| + |sep|] == sep;
    assert At(f + sep, sep, |f|);
    assert k <= |f| && k < |t|;
    assert Split(t, sep)[0] == t[..k];
    if k == |f| {
      assert t[..k] == f && t[k + |sep|..] == tail;
      assert Split(t, sep)[1..] == Split(tail, sep);
      assert fields == [f] + fields[1..];
    } else {
      assert |Split(t, sep)[0]| != |f|;
    }
  }

  /** With a separator of one character it is enough that no field contains it. */
  lemma SplitUndoesJoin(fields: seq<string>, c: char)
    requires fields != [] && forall i :: 0 <= i < |fields| ==> c !in fields[i]
    ensures Split(Join(fields, [c]), [c]) == fields
  {
    forall i | 0 <= i < |fields| ensures EndsWell(fields[i], [c]) && Free(fields[i], [c]) {
      OneCharEndsWell(fields[i], c);
    }
    SplitUndoesJoinExactly(fields, [c]);
  }

  lemma OneCharEndsWell(f: string, c: char)
    requires c !in f
    ensures EndsWell(f, [c]) && Free(f, [c])
  {
    forall j | 0 <= j < |f| ensures !At(f + [c], [c], j) && !At(f, [c], j) {
      assert (f + [c])[j..j + 1] == [f[j]] && f[j..j + 1] == [f[j]];
      assert [f[j]][0] != [c][0];
    }
    assert (f + [c])[|f|..|f| + 1] == [c];
    FirstIs(f + [c], [c], |f|);
  }

  /** With a longer one it is not. */
  lemma LongSeparatorsOverlap()
    ensures Free("a", "aa") && Free("", "aa") && Split(Join(["a", ""], "aa"), "aa") == ["", "a"]
  {
    var t := Join(["a", ""], "aa");
    assert ["a", ""][1..] == [""];
    assert t == "aaa";
    assert t[0..2] == "aa";
    FirstIs(t, "aa", 0);
    FirstIs("a", "aa", 1);
    assert t[2..] == "a";
    assert Split("a", "aa") == ["a"];
  }

  // ---------- in place ----------

  lemma {:induction false} CStrDrop(buf: string, n: nat)
    requires n <= |CStr(buf)|
    ensures CStr(buf[n..]) == CStr(buf)[n..]
  {
    if n == 0 {
      assert buf[0..] == buf;
    } else {
      CStrDrop(buf[1..], n - 1);
      assert buf[1..][n - 1..] == buf[n..];
    }
  }

  /** A field lies terminated in the buffer before position p. */
  predicate LiesBefore(buf: string, start: nat, field: string, p: nat) {
    start + |field| < p <= |buf| && NUL !in field && buf[start..start + |field|] == field && buf[start + |field|] == NUL
  }

  lemma LiesAlone(buf: string, start: nat, field: string, p: nat)
    requires LiesBefore(buf, start, field, p)
    ensures CStr(buf[start..]) == field
  {
    CStrTerminated(field, buf[start + |field| + 1..]);
    assert buf[start..] == field + [NUL] + buf[start + |field| + 1..];
  }

  lemma StillLies(before: string, after: string, start: nat, field: string, p: nat)
    requires LiesBefore(before, start, field, p) && |after| == |before| && after[..p] == before[..p]
    ensures forall q: nat :: p <= q <= |after| ==> LiesBefore(after, start, field, q)
  {
    assert after[start..start + |field|] == after[..p][start..start + |field|];
    assert before[start..start + |field|] == before[..p][start..start + |field|];
    assert after[start + |field|] == after[..p][start + |field|] == before[..p][start + |field|];
  }

  /** A C string that starts at p ends before the end of the buffer. */
  lemma TextFits(buf: string, p: nat)
    requires p <= |buf| && NUL in buf[p..]
    ensures var t := CStr(buf[p..]); p + |t| < |buf| && buf[p..p + |t|] == t && buf[p + |t|] == NUL
  {
    var t := CStr(buf[p..]);
    assert |t| < |buf[p..]|;
    assert buf[p..][..|t|] == t;
    assert buf[p..][|t|] == buf[p + |t|];
  }

  /** One cut: the first field ends at its separator ... */
  lemma CutField(buf: string, p: nat, k: nat)
    requires p <= |buf| && NUL in buf[p..] && k < |CStr(buf[p..])|
    ensures p + k < |buf| && LiesBefore(buf[p + k := NUL], p, CStr(buf[p..])[..k], p + k + 1)
  {
    TextFits(buf, p);
    var t, after := CStr(buf[p..]), buf[p + k := NUL];
    assert after[p..p + k] == buf[p..p + k] == t[..k];
  }

  /** ... and the rest is as it was. */
  lemma CutRest(buf: string, p: nat, k: nat, q: nat)
    requires p <= |buf| && NUL in buf[p..] && p + k < q <= p + |CStr(buf[p..])|
    ensures q < |buf| && NUL in buf[p + k := NUL][q..] && CStr(buf[p + k := NUL][q..]) == CStr(buf[p..])[q - p..]
  {
    TextFits(buf, p);
    var after := buf[p + k := NUL];
    assert after[q..] == buf[q..] == buf[p..][q - p..];
    CStrDrop(buf[p..], q - p);
    assert buf[q..][p + |CStr(buf[p..])| - q] == NUL;
  }

  ghost predicate AllLie(buf: string, starts: seq<nat>, done: seq<string>, p: nat)
    requires |starts| >= |done|
  {
    forall i :: 0 <= i < |done| ==> LiesBefore(buf, starts[i], done[i], p)
  }

  /** Where the loop is: some fields are cut off, and `all` are these and those of the text at p. */
  ghost predicate Cutting(buf: string, sep: string, all: seq<string>, starts: seq<nat>, done: seq<string>, p: nat)
    requires sep != ""
  {
    && p <= |buf| && NUL in buf[p..]
    && |starts| == |done| + 1 && starts[|done|] == p
    && AllLie(buf, starts, done, p)
    && all == done + Split(CStr(buf[p..]), sep)
  }

  lemma CuttingStart(buf: string, sep: string)
    requires NUL in buf && sep != ""
    ensures Cutting(buf, sep, Split(CStr(buf), sep), [0], [], 0)
  {
    assert buf[0..] == buf;
  }

  lemma CuttingIs(buf: string, sep: string, all: seq<string>, starts: seq<nat>, done: seq<string>, p: nat)
    requires sep != ""
    ensures Cutting(buf, sep, all, starts, done, p) <==>
            && p <= |buf| && NUL in buf[p..] && |starts| == |done| + 1 && starts[|done|] == p
            && AllLie(buf, starts, done, p) && all == done + Split(CStr(buf[p..]), sep)
  {
  }

  lemma CuttingTurn(buf: string, sep: string, all: seq<string>, starts: seq<nat>, done: seq<string>, p: nat, k: nat)
    requires sep != "" && Cutting(buf, sep, all, starts, done, p) && k == First(CStr(buf[p..]), sep) < |CStr(buf[p..])|
    ensures p + k + |sep| < |buf|
    ensures Cutting(buf[p + k := NUL], sep, all, starts + [p + k + |sep|], done + [CStr(buf[p..])[..k]], p + k + |sep|)
  {
    hide CStr, First, At, LiesBefore, Split, AllLie, Cutting;
    CuttingIs(buf, sep, all, starts, done, p);
    var t, q := CStr(buf[p..]), p + k + |sep|;
    RestTurn(buf, sep, all, done, p, k, q, t);
    CutField(buf, p, k);
    MoreLie(buf, starts, done, p, k, q, t[..k]);
    CuttingIs(buf[p + k := NUL], sep, all, starts + [q], done + [t[..k]], q);
  }

  lemma RestTurn(buf: string, sep: string, all: seq<string>, done: seq<string>, p: nat, k: nat, q: nat, t: string)
    requires sep != "" && p <= |buf| && NUL in buf[p..] && t == CStr(buf[p..]) && k == First(t, sep) && k < |t|
    requires all == done + Split(t, sep) && q == p + k + |sep|
    ensures q < |buf| && NUL in buf[p + k := NUL][q..]
    ensures all == done + [t[..k]] + Split(CStr(buf[p + k := NUL][q..]), sep)
  {
    hide CStr, First, At, Split;
    SplitTurn(t, sep, k, all, done);
    CutRest(buf, p, k, q);
    assert CStr(buf[p + k := NUL][q..]) == t[k + |sep|..];
  }

  lemma SplitTurn(t: string, sep: string, k: nat, all: seq<string>, done: seq<string>)
    requires sep != "" && k == First(t, sep) && k < |t| && all == done + Split(t, sep)
    ensures k + |sep| <= |t| && all == done + [t[..k]] + Split(t[k + |sep|..], sep)
  {
    hide First, At;
    assert Split(t, sep) == [t[..k]] + Split(t[k + |sep|..], sep);
  }

  lemma MoreLie(buf: string, starts: seq<nat>, done: seq<string>, p: nat, k: nat, q: nat, field: string)
    requires |starts| == |done| + 1 && starts[|done|] == p && p + k < q < |buf|
    requires AllLie(buf, starts, done, p)
    requires LiesBefore(buf[p + k := NUL], p, field, p + k + 1)
    ensures AllLie(buf[p + k := NUL], starts + [q], done + [field], q)
  {
    hide LiesBefore;
    var after, starts', done' := buf[p + k := NUL], starts + [q], done + [field];
    StillLies(after, after, p, field, p + k + 1);
    forall i | 0 <= i < |done'| ensures LiesBefore(after, starts'[i], done'[i], q) {
      if i < |done| {
        assert after[..p] == buf[..p];
        StillLies(buf, after, starts[i], done[i], p);
      }
    }
  }

  lemma CuttingEnd(buf: string, sep: string, all: seq<string>, starts: seq<nat>, done: seq<string>, p: nat)
    requires sep != "" && Cutting(buf, sep, all, starts, done, p) && First(CStr(buf[p..]), sep) == |CStr(buf[p..])|
    ensures |starts| == |all|
    ensures forall i :: 0 <= i < |starts| ==> starts[i] <= |buf| && CStr(buf[starts[i]..]) == all[i]
  {
    hide CStr, First;
    forall i | 0 <= i < |starts| ensures starts[i] <= |buf| && CStr(buf[starts[i]..]) == all[i] {
      if i < |done| {
        LiesAlone(buf, starts[i], done[i], p);
      }
    }
  }

  /**
    The positions found are where the fields of the text begin, and the buffer holds each of them as a
    C string of its own.
   */
  method SplitString(s: array<char>, sep: string) returns (fieldVec: seq<nat>)
    requires NUL in s[..] && sep != ""
    modifies s
    ensures |fieldVec| == |Split(CStr(old(s[..])), sep)|
    ensures forall i :: 0 <= i < |fieldVec| ==>
              fieldVec[i] <= s.Length && CStr(s[..][fieldVec[i]..]) == Split(CStr(old(s[..])), sep)[i]
    ensures forall j :: 0 <= j < s.Length ==> s[j] == old(s[j]) || s[j] == NUL
  {
    hide CStr, First, Split, Cutting;
    var p: nat := 0;
    fieldVec := [0];
    ghost var all, done: seq<string> := Split(CStr(s[..]), sep), [];
    CuttingStart(s[..], sep);
    var text := CStr(s[..][p..]);
    var k := First(text, sep);
    while k < |text|
      invariant p <= s.Length && text == CStr(s[..][p..]) && k == First(text, sep)
      invariant Cutting(s[..], sep, all, fieldVec, done, p)
      invariant forall j :: 0 <= j < s.Length ==> s[j] == old(s[j]) || s[j] == NUL
      decreases s.Length - p
    {
      ghost var buf := s[..];
      CuttingTurn(buf, sep, all, fieldVec, done, p, k);
      s[p + k] := NUL;
      assert s[..] == buf[p + k := NUL];
      done := done + [text[..k]];
      p := p + k + |sep|;
      fieldVec := fieldVec + [p];
      text := CStr(s[..][p..]);
      k := First(text, sep);
    }
    CuttingEnd(s[..], sep, all, fieldVec, done, p);
  }
}
