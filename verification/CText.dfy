/**
  C strings as Dafny strings. A character array is read up to its first NUL; a `char` stands for
  one byte, so the characters of interest are those below 256 (`IsBytes`). The order `Before` is
  the one std::string's operator< gives, which is what cmpKeyAscii uses.
 */
module CText {

  const NUL: char := '\0'

  datatype Option<+T> = None | Some(value: T)

  predicate IsBytes(s: string) {
    forall i :: 0 <= i < |s| ==> s[i] as int < 256
  }

  /** What a C function sees of a buffer: everything before the first NUL. */
  function CStr(buf: string): (s: string)
    ensures NUL !in s && s <= buf
    ensures |s| == |buf| || buf[|s|] == NUL
  {
    if buf == [] || buf[0] == NUL then []
    else
      var rest := CStr(buf[1..]);
      assert buf == [buf[0]] + buf[1..];
      [buf[0]] + rest
  }

  /** A text followed by a terminator reads back as that text, whatever comes after. */
  lemma {:induction false} CStrTerminated(s: string, junk: string)
    requires NUL !in s
    ensures CStr(s + [NUL] + junk) == s
  {
    if s != [] {
      CStrTerminated(s[1..], junk);
      assert (s + [NUL] + junk)[1..] == s[1..] + [NUL] + junk;
    }
  }

  lemma {:induction false} CStrWhole(s: string)
    requires NUL !in s
    ensures CStr(s) == s
  {
    if s != [] {
      CStrWhole(s[1..]);
    }
  }

  /** The position strchr finds, or the length when it finds nothing. */
  function IndexOf(s: string, c: char): (i: nat)
    ensures i <= |s|
    ensures c !in s[..i]
    ensures i < |s| ==> s[i] == c
  {
    if s == [] || s[0] == c then 0
    else
      var i := 1 + IndexOf(s[1..], c);
      assert s[..i] == [s[0]] + s[1..][..i - 1];
      i
  }

  lemma IndexOfUnique(s: string, c: char, i: nat)
    requires i <= |s| && c !in s[..i] && (i < |s| ==> s[i] == c)
    ensures IndexOf(s, c) == i
  {
    var j := IndexOf(s, c);
    assert forall k :: 0 <= k < i ==> s[k] in s[..i];
    assert forall k :: 0 <= k < j ==> s[k] in s[..j];
  }

  lemma Assoc(a: string, b: string, c: string)
    ensures a + (b + c) == a + b + c
  {
  }

  /** Fields separated by a text. */
  function Join(fields: seq<string>, sep: string): string {
    if |fields| == 0 then ""
    else if |fields| == 1 then fields[0]
    else fields[0] + sep + Join(fields[1..], sep)
  }

  // ---------- the order of map keys ----------

  predicate Before(a: string, b: string) {
    b != [] && (a == [] || a[0] < b[0] || (a[0] == b[0] && Before(a[1..], b[1..])))
  }

  /** The order of bytes: the shorter text comes first, or the one with the smaller byte where they part. */
  predicate ByteLess(a: string, b: string) {
    exists k :: 0 <= k <= |a| && k < |b| && a[..k] == b[..k] && (k == |a| || a[k] as int < b[k] as int)
  }

  lemma BeforeIsByteOrder(a: string, b: string)
    ensures Before(a, b) <==> ByteLess(a, b)
  {
    if Before(a, b) {
      var k := Parting(a, b);
    }
    if ByteLess(a, b) {
      var k :| 0 <= k <= |a| && k < |b| && a[..k] == b[..k] && (k == |a| || a[k] as int < b[k] as int);
      PartsBefore(a, b, k);
    }
  }

  lemma {:induction false} Parting(a: string, b: string) returns (k: nat)
    requires Before(a, b)
    ensures k <= |a| && k < |b| && a[..k] == b[..k] && (k == |a| || a[k] as int < b[k] as int)
  {
    if a == [] || a[0] < b[0] {
      k := 0;
    } else {
      k := Parting(a[1..], b[1..]);
      assert a[..k + 1] == [a[0]] + a[1..][..k] && b[..k + 1] == [b[0]] + b[1..][..k];
      k := k + 1;
    }
  }

  lemma {:induction false} PartsBefore(a: string, b: string, k: nat)
    requires k <= |a| && k < |b| && a[..k] == b[..k] && (k == |a| || a[k] as int < b[k] as int)
    ensures Before(a, b)
  {
    if k > 0 {
      assert a[..k][0] == a[0] && b[..k][0] == b[0];
      assert a[1..][..k - 1] == a[..k][1..] && b[1..][..k - 1] == b[..k][1..];
      PartsBefore(a[1..], b[1..], k - 1);
    }
  }

  lemma {:induction false} BeforeIsTotal(a: string, b: string)
    ensures Before(a, b) || a == b || Before(b, a)
  {
    if a != [] && b != [] && a[0] == b[0] {
      BeforeIsTotal(a[1..], b[1..]);
      assert a == [a[0]] + a[1..] && b == [b[0]] + b[1..];
    }
  }

  lemma {:induction false} BeforeIsStrict(a: string, b: string)
    requires Before(a, b)
    ensures a != b && !Before(b, a)
  {
    if a != [] && a[0] == b[0] {
      BeforeIsStrict(a[1..], b[1..]);
    }
  }

  lemma {:induction false} BeforeIsTransitive(a: string, b: string, c: string)
    requires Before(a, b) && Before(b, c)
    ensures Before(a, c)
  {
    if a != [] && a[0] == b[0] == c[0] {
      BeforeIsTransitive(a[1..], b[1..], c[1..]);
    }
  }
}
