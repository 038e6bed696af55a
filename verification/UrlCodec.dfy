/**
  src/HttpClient.cpp, url_encode and url_decode: the application/x-www-form-urlencoded codec
  (section 17.13.4.1 of HTML 4.01; percent escapes as in section 2.1 of RFC 3986).
  Each loop is proved against a function on strings; the round trips are proved of the functions.
 */
module UrlCodec {
  import opened CText

  const NON_NUM := 48  // the code of '0'

  // ---------- encoding ----------

  predicate IsSafe(c: char) {
    'A' <= c <= 'Z' || 'a' <= c <= 'z' || '0' <= c <= '9' || c == '.' || c == '-' || c == '_' || c == '*'
  }

  function HexDigit(n: int): char
    requires 0 <= n < 16
  {
    if n < 10 then ('0' as int + n) as char else ('A' as int + n - 10) as char
  }

  /** The escape sprintf writes for one character, cast to unsigned char, with "%%%02X". */
  function Escape(c: char): string {
    ['%', HexDigit(c as int % 256 / 16), HexDigit(c as int % 16)]
  }

  function EncodeChar(c: char): string {
    if IsSafe(c) then [c] else if c == ' ' then ['+'] else Escape(c)
  }

  /** The encoding of a text, with no limit on its size. */
  function Encode(s: string): string {
    if s == [] then [] else EncodeChar(s[0]) + Encode(s[1..])
  }

  // Complete: all of it went in; Refused: an escape did not fit, the call returns 0;
  // Overrun: the room is used up and the terminator has no place of its own.
  datatype Outcome = Complete | Refused | Overrun
  datatype Filling = Filling(text: string, outcome: Outcome)

  /** What url_encode leaves in `room` bytes, and how it ends. */
  function EncodeInto(s: string, room: nat): Filling {
    if room == 0 then Filling([], Overrun)
    else if s == [] then Filling([], Complete)
    else
      var piece := EncodeChar(s[0]);
      if |piece| == 3 && room <= 3 then Filling([], Refused)
      else
        var rest := EncodeInto(s[1..], room - |piece|);
        Filling(piece + rest.text, rest.outcome)
  }

  /** The encoding is complete exactly when it is shorter than the room; otherwise a prefix is left. */
  lemma {:induction false} EncodeIntoIsEncode(s: string, room: nat)
    ensures EncodeInto(s, room).outcome.Complete? <==> |Encode(s)| < room
    ensures EncodeInto(s, room).text <= Encode(s)
    ensures EncodeInto(s, room).outcome.Complete? ==> EncodeInto(s, room).text == Encode(s)
    ensures |EncodeInto(s, room).text| <= room
    ensures !EncodeInto(s, room).outcome.Overrun? ==> |EncodeInto(s, room).text| < room
    ensures EncodeInto(s, room).outcome.Overrun? ==> |EncodeInto(s, room).text| == room
  {
    if room != 0 && s != [] {
      var piece := EncodeChar(s[0]);
      if !(|piece| == 3 && room <= 3) {
        EncodeIntoIsEncode(s[1..], room - |piece|);
      }
    }
  }

  /** The leading part of a text that url_encode gets into `room` bytes. */
  function Fitting(s: string, room: nat): string {
    if room == 0 || s == [] || (|EncodeChar(s[0])| == 3 && room <= 3) then []
    else [s[0]] + Fitting(s[1..], room - |EncodeChar(s[0])|)
  }

  /** What is left in the buffer is the encoding of that part, which is all of the text exactly when that fits. */
  lemma {:induction false} EncodesFitting(s: string, room: nat)
    requires !EncodeInto(s, room).outcome.Overrun?
    ensures Fitting(s, room) <= s && EncodeInto(s, room).text == Encode(Fitting(s, room))
    ensures Fitting(s, room) == s <==> |Encode(s)| < room
  {
    EncodeIntoIsEncode(s, room);
    if s != [] && !(|EncodeChar(s[0])| == 3 && room <= 3) {
      EncodesFitting(s[1..], room - |EncodeChar(s[0])|);
      assert s == [s[0]] + s[1..];
    }
  }

  /** It is the longest leading part whose encoding fits with its terminator. */
  lemma {:induction false} FittingIsLongest(s: string, room: nat, k: nat)
    requires !EncodeInto(s, room).outcome.Overrun? && k <= |s|
    ensures |Encode(s[..k])| < room <==> k <= |Fitting(s, room)|
  {
    if k > 0 {
      var piece := EncodeChar(s[0]);
      assert s[..k][0] == s[0] && s[..k][1..] == s[1..][..k - 1];
      assert Encode(s[..k]) == piece + Encode(s[1..][..k - 1]);
      if !(|piece| == 3 && room <= 3) {
        FittingIsLongest(s[1..], room - |piece|, k - 1);
      }
    }
  }

  /** url_encode. A C call with an empty text writes nothing at all. */
  method UrlEncode(str: string, result: array<char>, resultSize: nat) returns (j: nat)
    requires resultSize <= result.Length
    requires str != [] && resultSize > 0 && EncodeInto(str, resultSize).outcome.Overrun? ==> resultSize < result.Length
    modifies result
    ensures str == [] || resultSize == 0 ==> j == 0 && result[..] == old(result[..])
    ensures str != [] && resultSize > 0 ==>
              var f := EncodeInto(str, resultSize);
              && |f.text| < result.Length && result[..|f.text|] == f.text
              && j == (if f.outcome.Refused? then 0 else |f.text|)
              && (result[|f.text|] == NUL || (f.outcome.Refused? && result[|f.text|] == old(result[|f.text|])))
              && forall k :: |f.text| < k < result.Length ==> result[k] == old(result[k])
  {
    hide EncodeInto, HexDigit, Encode;
    if |str| <= 0 || resultSize <= 0 {
      return 0;
    }
    j := 0;
    var i := 0;
    ghost var out := "";
    assert str[i..] == str;
    while i < |str| && j < resultSize
      invariant 0 <= i <= |str| && j == |out| <= resultSize
      invariant result[..j] == out
      invariant FilledUpTo(str, resultSize, i, out)
      invariant forall k :: j < k < result.Length ==> result[k] == old(result[k])
      invariant j < result.Length ==> result[j] == NUL || result[j] == old(result[j])
    {
      var ch := str[i];
      FillStep(str, resultSize, i, out);
      if 'A' <= ch <= 'Z' || 'a' <= ch <= 'z' || '0' <= ch <= '9' {
        j := Put(result, j, ch);
      } else if ch == ' ' {
        j := Put(result, j, '+');
      } else if ch == '.' || ch == '-' || ch == '_' || ch == '*' {
        j := Put(result, j, ch);
      } else {
        if j + 3 < resultSize {
          j := WriteEscape(ch, result, j);
        } else {
          return 0;
        }
      }
      out := out + EncodeChar(ch);
      i := i + 1;
    }
    FillDone(str, resultSize, i, out);
    result[j] := NUL;
  }

  /** The loop of url_encode has turned str[..i] into out; the rest goes into what room is left. */
  ghost predicate FilledUpTo(str: string, size: nat, i: nat, out: string) {
    && i <= |str| && |out| <= size
    && EncodeInto(str, size).text == out + EncodeInto(str[i..], size - |out|).text
    && EncodeInto(str, size).outcome == EncodeInto(str[i..], size - |out|).outcome
  }

  lemma FillStep(str: string, size: nat, i: nat, out: string)
    requires FilledUpTo(str, size, i, out) && i < |str| && |out| < size
    ensures var piece := EncodeChar(str[i]);
            if |piece| == 3 && size - |out| <= 3 then EncodeInto(str, size) == Filling(out, Refused)
            else |out + piece| <= size && FilledUpTo(str, size, i + 1, out + piece)
  {
    hide HexDigit, IsSafe;
    var here, piece := str[i..], EncodeChar(str[i]);
    assert here[0] == str[i] && here[1..] == str[i + 1..];
    if |piece| == 3 && size - |out| <= 3 {
      assert out + [] == out;
    } else {
      Assoc(out, piece, EncodeInto(here[1..], size - |out| - |piece|).text);
    }
  }

  lemma FillDone(str: string, size: nat, i: nat, out: string)
    requires FilledUpTo(str, size, i, out) && (i == |str| || |out| == size)
    ensures EncodeInto(str, size).text == out && !EncodeInto(str, size).outcome.Refused?
    ensures EncodeInto(str, size).outcome == if |out| < size then Complete else Overrun
  {
    assert out + [] == out;
  }

  /** result[j++] = c */
  method Put(result: array<char>, j: nat, c: char) returns (next: nat)
    requires j < result.Length
    modifies result
    ensures next == j + 1
    ensures result[..next] == old(result[..j]) + [c]
    ensures forall k :: next <= k < result.Length ==> result[k] == old(result[k])
  {
    result[j] := c;
    next := j + 1;
  }

  /** sprintf(result + j, "%%%02X", ch), which also terminates. */
  method WriteEscape(ch: char, result: array<char>, j: nat) returns (next: nat)
    requires j + 3 < result.Length
    modifies result
    ensures next == j + 3 && result[next] == NUL
    ensures result[..next] == old(result[..j]) + Escape(ch)
    ensures forall k :: next < k < result.Length ==> result[k] == old(result[k])
  {
    result[j] := '%';
    result[j + 1] := HexDigit(ch as int % 256 / 16);
    result[j + 2] := HexDigit(ch as int % 16);
    result[j + 3] := NUL;
    next := j + 3;
    assert result[..next] == result[..j] + [result[j], result[j + 1], result[j + 2]];
  }

  // ---------- decoding ----------

  /** hex2num: letters past F still count on; anything else gives NON_NUM. */
  function Hex2Num(c: char): (n: int)
    ensures 0 <= n < 36 || n == NON_NUM
  {
    if '0' <= c <= '9' then c as int - '0' as int
    else if 'a' <= c <= 'z' then c as int - 'a' as int + 10
    else if 'A' <= c <= 'Z' then c as int - 'A' as int + 10
    else NON_NUM
  }

  /** (char)((hi << 4) | lo) for hi and lo below 36: lo may carry into bits 4 and 5. */
  function Combine(hi: int, lo: int): (c: char)
    requires 0 <= hi < 36 && 0 <= lo < 36
    ensures c as int < 256
    ensures hi < 16 && lo < 16 ==> c as int == hi * 16 + lo
  {
    var upper := if lo < 16 then hi
                 else if lo < 32 then (if hi % 2 == 0 then hi + 1 else hi)
                 else (if hi / 2 % 2 == 0 then hi + 2 else hi);
    ((upper * 16 + lo % 16) % 256) as char
  }

  function DecodeEscape(a: char, b: char): string {
    if Hex2Num(a) != NON_NUM && Hex2Num(b) != NON_NUM then [Combine(Hex2Num(a), Hex2Num(b))] else []
  }

  /** How many bytes one step of the decoder reads, and what it writes for them. */
  function Reads(s: string): (n: nat)
    requires s != []
    ensures 1 <= n <= |s|
  {
    if s[0] == '%' && |s| > 2 then 3 else 1
  }

  function Writes(s: string): string
    requires s != []
  {
    if s[0] == '+' then [' ']
    else if s[0] == '%' then (if |s| > 2 then DecodeEscape(s[1], s[2]) else [])
    else [s[0]]
  }

  /** What url_decode makes of the bytes it is given. */
  function Decode(s: string): string {
    if s == [] then [] else Writes(s) + Decode(s[Reads(s)..])
  }

  function Min(a: int, b: int): int {
    if a < b then a else b
  }

  /** url_decode: output stops at resultSize characters; the terminator goes right behind it. */
  method UrlDecode(str: string, result: array<char>, resultSize: nat) returns (j: nat)
    requires str != [] && resultSize > 0 ==> Min(|Decode(str)|, resultSize) < result.Length
    modifies result
    ensures str == [] || resultSize == 0 ==> j == 0 && result[..] == old(result[..])
    ensures str != [] && resultSize > 0 ==>
              && j == Min(|Decode(str)|, resultSize) < result.Length
              && result[..j] == Decode(str)[..j] && result[j] == NUL
  {
    hide Decode, Combine, Hex2Num;
    if |str| <= 0 || resultSize <= 0 {
      return 0;
    }
    j := 0;
    var i := 0;
    ghost var whole, out := Decode(str), "";
    while i < |str| && j < resultSize
      invariant 0 <= i <= |str| && j == |out| <= resultSize && j < result.Length
      invariant result[..j] == out
      invariant whole == out + Decode(str[i..])
    {
      var ch := str[i];
      ghost var here := str[i..];
      Advance(whole, out, here);
      if ch == '+' {
        j := Put(result, j, ' ');
      } else if ch == '%' {
        if i + 2 < |str| {
          var ch1 := Hex2Num(str[i + 1]);
          var ch2 := Hex2Num(str[i + 2]);
          if ch1 != NON_NUM && ch2 != NON_NUM {
            j := Put(result, j, Combine(ch1, ch2));
          }
          i := i + 2;
        }
      } else {
        j := Put(result, j, ch);
      }
      i := i + 1;
      out := out + Writes(here);
    }
    assert i < |str| || str[i..] == [];
    DecodeNothing(out);
    result[j] := NUL;
  }

  lemma DecodeNothing(out: string)
    ensures out + Decode("") == out
  {
  }

  /** One step of the decoder, on the text written so far. */
  lemma Advance(whole: string, out: string, here: string)
    requires here != [] && whole == out + Decode(here)
    ensures whole == out + Writes(here) + Decode(here[Reads(here)..])
    ensures |out + Writes(here)| <= |whole|
  {
    Assoc(out, Writes(here), Decode(here[Reads(here)..]));
  }

  // ---------- round trips ----------

  lemma EncodeCharDecodes(c: char, rest: string)
    requires c as int < 256
    ensures Decode(EncodeChar(c) + rest) == [c] + Decode(rest)
  {
    var s := EncodeChar(c) + rest;
    if !IsSafe(c) && c != ' ' {
      EscapeDecodes(c);
    }
    assert s[Reads(s)..] == rest;
    assert Writes(s) == [c];
  }

  lemma EscapeDecodes(c: char)
    requires c as int < 256
    ensures |Escape(c)| == 3 && Escape(c)[0] == '%' && DecodeEscape(Escape(c)[1], Escape(c)[2]) == [c]
  {
    assert c as int % 256 == c as int;
  }

  /**
    Decoding undoes encoding, byte for byte, whatever follows: with nothing behind it this is the
    exact-length call, with a NUL behind it the length-plus-terminator call parse_pair makes.
   */
  lemma {:induction false} DecodeUndoesEncode(s: string, rest: string)
    requires IsBytes(s)
    ensures Decode(Encode(s) + rest) == s + Decode(rest)
  {
    if s == [] {
      assert Encode(s) + rest == rest;
    } else {
      var tail := Encode(s[1..]) + rest;
      Assoc(EncodeChar(s[0]), Encode(s[1..]), rest);
      EncodeCharDecodes(s[0], tail);
      DecodeUndoesEncode(s[1..], rest);
      Assoc([s[0]], s[1..], Decode(rest));
      assert s == [s[0]] + s[1..];
    }
  }

  /** Two texts with one encoding are one text. */
  lemma EncodeIsInjective(s: string, t: string)
    requires IsBytes(s) && IsBytes(t) && Encode(s) == Encode(t)
    ensures s == t
  {
    DecodeUndoesEncode(s, "");
    DecodeUndoesEncode(t, "");
    assert s + Decode("") == s && t + Decode("") == t;
  }

  /** The characters an encoding is made of: nothing in it can separate pairs or end a C string. */
  lemma {:induction false} EncodeIsPlain(s: string)
    ensures forall c :: c in Encode(s) ==> IsSafe(c) || c == '+' || c == '%'
    ensures '&' !in Encode(s) && '=' !in Encode(s) && NUL !in Encode(s)
  {
    if s != [] {
      EncodeIsPlain(s[1..]);
    }
  }

  /** A lone '%' with one character behind it, at the point decoding reaches it. */
  predicate EndsInHalfEscape(s: string) {
    s != [] && ((s[0] == '%' && |s| == 2) || EndsInHalfEscape(s[Reads(s)..]))
  }

  /**
    Counting the terminator as text changes the result in one case only: a half escape at the end
    takes the terminator for its second digit, and loses both it and the first.
   */
  lemma {:induction false} TerminatorDecodes(s: string)
    requires NUL !in s
    ensures EndsInHalfEscape(s) ==> Decode(s) == Decode(s + [NUL]) + Decode([s[|s| - 1]])
    ensures !EndsInHalfEscape(s) ==> Decode(s + [NUL]) == Decode(s) + [NUL]
  {
    var t := s + [NUL];
    if s == [] {
    } else if s[0] == '%' && |s| == 2 {
      assert t[3..] == [] && s[1..] == [s[1]];
    } else {
      var rest := s[Reads(s)..];
      assert Reads(t) == Reads(s) && Writes(t) == Writes(s) && t[Reads(t)..] == rest + [NUL];
      TerminatorDecodes(rest);
      if EndsInHalfEscape(s) {
        Assoc(Writes(s), Decode(rest + [NUL]), Decode([s[|s| - 1]]));
      } else {
        Assoc(Writes(s), Decode(rest), [NUL]);
      }
    }
  }

  /** Decoding never lengthens, and leaves a text as it is exactly when it holds no '%' and no '+'. */
  lemma {:induction false} DecodeFixesExactly(s: string)
    ensures |Decode(s)| <= |s|
    ensures '%' in s ==> |Decode(s)| < |s|
    ensures Decode(s) == s <==> '%' !in s && '+' !in s
  {
    if s == [] {
    } else if s[0] == '%' {
      if |s| > 2 { DecodeFixesExactly(s[3..]); } else { DecodeFixesExactly(s[1..]); }
    } else {
      DecodeFixesExactly(s[1..]);
      assert s == [s[0]] + s[1..];
      if Decode(s) == s {
        assert Decode(s)[1..] == Decode(s[1..]);
      }
    }
  }

  /**
    Read as a C string, the text decoded with its terminator differs from the text decoded without
    exactly when it ends in half an escape with a digit other than '%', and no NUL is decoded before.
   */
  lemma TerminatorShows(s: string)
    requires NUL !in s
    ensures CStr(Decode(s + [NUL])) == CStr(Decode(s))
            <==> !(EndsInHalfEscape(s) && s[|s| - 1] != '%' && NUL !in Decode(s + [NUL]))
  {
    hide Decode, EndsInHalfEscape, CStr;
    TerminatorDecodes(s);
    if EndsInHalfEscape(s) {
      HalfEscapeNotEmpty(s);
      OneDecodes(s[|s| - 1]);
      TailShows(Decode(s + [NUL]), Decode([s[|s| - 1]]));
    } else {
      TailShows(Decode(s), [NUL]);
    }
  }

  /** What stands behind a text shows in the C string unless the text ends one, or it does not begin one. */
  lemma TailShows(a: string, b: string)
    ensures CStr(a + b) == CStr(a) <==> NUL in a || b == [] || b[0] == NUL
  {
    CStrOfSum(a, b);
    if NUL !in a {
      CStrWhole(a);
      assert |a + CStr(b)| == |a| + |CStr(b)|;
      if CStr(b) == [] {
        assert a + CStr(b) == a;
      }
    }
  }

  lemma HalfEscapeNotEmpty(s: string)
    requires EndsInHalfEscape(s)
    ensures s != []
  {
  }

  lemma OneDecodes(c: char)
    ensures Decode([c]) == if c == '%' then [] else if c == '+' then [' '] else [c]
  {
    assert [c][1..] == [];
  }

  /** A C string ends at its first NUL. */
  lemma {:induction false} CStrOfSum(a: string, b: string)
    ensures CStr(a + b) == if NUL in a then CStr(a) else a + CStr(b)
  {
    if a == [] {
      assert a + b == b;
    } else {
      assert (a + b)[1..] == a[1..] + b && a == [a[0]] + a[1..];
      CStrOfSum(a[1..], b);
    }
  }

  /** Without '%' decoding only turns '+' into blanks. */
  lemma {:induction false} PlainDecodes(s: string)
    requires '%' !in s
    ensures |Decode(s)| == |s| && forall i :: 0 <= i < |s| ==> Decode(s)[i] == if s[i] == '+' then ' ' else s[i]
  {
    if s != [] {
      PlainDecodes(s[1..]);
    }
  }

  // ---------- byte by byte ----------

  /** The digit stands at place n, in lower or in upper case. */
  predicate IsDigitOf(c: char, n: int) {
    0 <= n < 16 && (c == "0123456789abcdef"[n] || c == "0123456789ABCDEF"[n])
  }

  /** An escape of two hex digits, in any mix of case, is the byte they write. */
  lemma HexDecodes(b: int, h: char, l: char, rest: string)
    requires 0 <= b < 256 && IsDigitOf(h, b / 16) && IsDigitOf(l, b % 16)
    ensures Decode(['%', h, l] + rest) == [b as char] + Decode(rest)
  {
    DigitCounts(h, b / 16);
    DigitCounts(l, b % 16);
    EscapeReads(h, l, rest);
  }

  lemma DigitCounts(c: char, n: int)
    requires IsDigitOf(c, n)
    ensures Hex2Num(c) == n
  {
    var lower, upper := "0123456789abcdef", "0123456789ABCDEF";
    if n < 10 {
      assert lower[n] == upper[n] == ('0' as int + n) as char;
    } else {
      assert lower[n] == ('a' as int + n - 10) as char && upper[n] == ('A' as int + n - 10) as char;
    }
  }

  lemma EscapeReads(h: char, l: char, rest: string)
    ensures Decode(['%', h, l] + rest) == DecodeEscape(h, l) + Decode(rest)
  {
    hide DecodeEscape;
    var t := ['%', h, l] + rest;
    assert t[3..] == rest && t[1] == h && t[2] == l;
  }

  predicate IsLetterOrDigit(c: char) {
    '0' <= c <= '9' || 'a' <= c <= 'z' || 'A' <= c <= 'Z'
  }

  /** An escape with a character that is no letter or digit is dropped, all three characters of it. */
  lemma BadEscapeVanishes(h: char, l: char, rest: string)
    requires !IsLetterOrDigit(h) || !IsLetterOrDigit(l)
    ensures Decode(['%', h, l] + rest) == Decode(rest)
  {
    EscapeReads(h, l, rest);
  }

  /** Letters behind F count on: 'g' and 'G' are 16, 'z' and 'Z' are 35, and overlapping bits are or-ed. */
  lemma LettersCountOn(h: char, l: char, hi: int, lo: int, rest: string)
    requires IsPlaceOf(h, hi) && IsPlaceOf(l, lo)
    ensures var t := Decode(['%', h, l] + rest);
            && t != [] && t[1..] == Decode(rest) && t[0] as int < 256
            && forall p :: p in {1, 2, 4, 8, 16, 32, 64, 128} ==>
                 (t[0] as int / p % 2 == 1 <==> hi * 16 / p % 2 == 1 || lo / p % 2 == 1)
  {
    PlaceCounts(h, hi);
    PlaceCounts(l, lo);
    EscapeReads(h, l, rest);
    CombineOrs(hi, lo);
  }

  /** The letter or digit stands at this place among the digits and the letters of one case. */
  predicate IsPlaceOf(c: char, n: int) {
    0 <= n < 36
    && (c == "0123456789abcdefghijklmnopqrstuvwxyz"[n] || c == "0123456789ABCDEFGHIJKLMNOPQRSTUVWXYZ"[n])
  }

  lemma PlaceCounts(c: char, n: int)
    requires IsPlaceOf(c, n)
    ensures Hex2Num(c) == n
  {
    var lower, upper := "0123456789abcdefghijklmnopqrstuvwxyz", "0123456789ABCDEFGHIJKLMNOPQRSTUVWXYZ";
    if n < 10 {
      assert lower[n] == upper[n] == ('0' as int + n) as char;
    } else {
      assert lower[n] == ('a' as int + n - 10) as char && upper[n] == ('A' as int + n - 10) as char;
    }
  }

  lemma Parity(a: int, s: int)
    ensures (2 * a + s) % 2 == s % 2
  {
  }

  lemma Quotients(q: int, r: int)
    requires 0 <= r < 16
    ensures (16 * q + r) / 2 == 8 * q + r / 2 && (16 * q + r) / 4 == 4 * q + r / 4 && (16 * q + r) / 8 == 2 * q + r / 8
  {
  }

  /** The lower four bits of a number have what the number has there. */
  lemma LowBits(x: int)
    requires x >= 0
    ensures x / 1 % 2 == x % 16 / 1 % 2 && x / 2 % 2 == x % 16 / 2 % 2
    ensures x / 4 % 2 == x % 16 / 4 % 2 && x / 8 % 2 == x % 16 / 8 % 2
  {
    var q, r := x / 16, x % 16;
    assert x == 16 * q + r;
    Quotients(q, r);
    Parity(8 * q, r);
    Parity(4 * q, r / 2);
    Parity(2 * q, r / 4);
    Parity(q, r / 8);
  }

  /** The upper four bits are those of the quotient. */
  lemma HighBits(u: int, r: int)
    requires u >= 0 && 0 <= r < 16
    ensures var c := (u * 16 + r) % 256;
            && c % 16 == r && c / 16 / 1 % 2 == u / 1 % 2 && c / 16 / 2 % 2 == u / 2 % 2
            && c / 16 / 4 % 2 == u / 4 % 2 && c / 16 / 8 % 2 == u / 8 % 2
  {
    var q, v := u / 16, u % 16;
    assert u == 16 * q + v;
    assert (u * 16 + r) % 256 == v * 16 + r by {
      assert u * 16 + r == q * 256 + (v * 16 + r);
    }
    LowBits(u);
  }

  function Or(hi: int, k: int): int {
    if k == 0 then hi
    else if k == 1 then (if hi % 2 == 0 then hi + 1 else hi)
    else (if hi / 2 % 2 == 0 then hi + 2 else hi)
  }

  lemma OrOne(hi: int)
    requires hi >= 0
    ensures Or(hi, 1) % 2 == 1 && Or(hi, 1) / 2 == hi / 2 && Or(hi, 1) / 4 == hi / 4 && Or(hi, 1) / 8 == hi / 8
  {
    var x := hi / 2;
    HalvedOnce(hi);
    assert Or(hi, 1) == 2 * x + 1;
    OddHalf(x);
    Halves(hi);
    Halves(2 * x + 1);
  }

  lemma HalvedOnce(n: int)
    ensures n == n / 2 * 2 + n % 2
  {
  }

  lemma OddHalf(x: int)
    ensures (2 * x + 1) / 2 == x && (2 * x + 1) % 2 == 1
  {
  }

  lemma Halves(n: int)
    requires n >= 0
    ensures n / 4 == n / 2 / 2 && n / 8 == n / 2 / 2 / 2
  {
  }

  lemma OrTwo(hi: int)
    requires hi >= 0
    ensures Or(hi, 2) % 2 == hi % 2 && Or(hi, 2) / 2 % 2 == 1 && Or(hi, 2) / 4 == hi / 4 && Or(hi, 2) / 8 == hi / 8
  {
    var y := hi / 4;
    Halves(hi);
    assert hi == 4 * y + hi % 4;
    assert Or(hi, 2) == 4 * y + 2 + hi % 2;
    Halves(Or(hi, 2));
  }

  lemma OrBits(hi: int, k: int)
    requires hi >= 0 && 0 <= k < 3
    ensures Or(hi, k) >= 0
    ensures Or(hi, k) / 1 % 2 == 1 <==> hi / 1 % 2 == 1 || k / 1 % 2 == 1
    ensures Or(hi, k) / 2 % 2 == 1 <==> hi / 2 % 2 == 1 || k / 2 % 2 == 1
    ensures Or(hi, k) / 4 % 2 == hi / 4 % 2 && Or(hi, k) / 8 % 2 == hi / 8 % 2
  {
    OrOne(hi);
    OrTwo(hi);
  }

  lemma CombineOrs(hi: int, lo: int)
    requires 0 <= hi < 36 && 0 <= lo < 36
    ensures forall p :: p in {1, 2, 4, 8, 16, 32, 64, 128} ==>
              (Combine(hi, lo) as int / p % 2 == 1 <==> hi * 16 / p % 2 == 1 || lo / p % 2 == 1)
  {
    var c, u, k := Combine(hi, lo) as int, Or(hi, lo / 16), lo / 16;
    assert c == (u * 16 + lo % 16) % 256;
    OrBits(hi, k);
    HighBits(u, lo % 16);
    LowBits(c);
    LowBits(lo);
    Sixteenths(hi, lo, c);
  }

  lemma Sixteenths(hi: int, lo: int, c: int)
    requires 0 <= hi < 36 && 0 <= lo < 36 && 0 <= c
    ensures c / 16 == c / 16 / 1 && c / 32 == c / 16 / 2 && c / 64 == c / 16 / 4 && c / 128 == c / 16 / 8
    ensures lo / 32 == lo / 16 / 2 && lo / 64 == 0 && lo / 128 == 0
    ensures hi * 16 / 16 == hi && hi * 16 / 32 == hi / 2 && hi * 16 / 64 == hi / 4 && hi * 16 / 128 == hi / 8
    ensures hi * 16 / 1 % 2 == 0 && hi * 16 / 2 % 2 == 0 && hi * 16 / 4 % 2 == 0 && hi * 16 / 8 % 2 == 0
  {
  }

  /** What one character is encoded to: itself, '+' for a blank, else an escape with upper-case digits. */
  lemma EncodesByte(c: char, rest: string)
    requires c as int < 256
    ensures Encode([c] + rest) ==
            (if 'A' <= c <= 'Z' || 'a' <= c <= 'z' || '0' <= c <= '9' || c == '.' || c == '-' || c == '_' || c == '*'
             then [c]
             else if c == ' ' then "+"
             else ['%', "0123456789ABCDEF"[c as int / 16], "0123456789ABCDEF"[c as int % 16]]) + Encode(rest)
  {
    hide Encode, EncodeChar;
    EncodeOfCons(c, rest);
    CharEncodes(c);
  }

  lemma EncodeOfCons(c: char, rest: string)
    ensures Encode([c] + rest) == EncodeChar(c) + Encode(rest)
  {
    hide EncodeChar;
    assert ([c] + rest)[1..] == rest && ([c] + rest)[0] == c;
  }

  lemma CharEncodes(c: char)
    requires c as int < 256
    ensures EncodeChar(c) ==
            if 'A' <= c <= 'Z' || 'a' <= c <= 'z' || '0' <= c <= '9' || c == '.' || c == '-' || c == '_' || c == '*'
            then [c]
            else if c == ' ' then "+"
            else ['%', "0123456789ABCDEF"[c as int / 16], "0123456789ABCDEF"[c as int % 16]]
  {
    hide Escape;
    EscapeSays(c);
  }

  lemma EscapeSays(c: char)
    requires c as int < 256
    ensures Escape(c) == ['%', "0123456789ABCDEF"[c as int / 16], "0123456789ABCDEF"[c as int % 16]]
  {
    hide HexDigit;
    var b := c as int;
    assert b % 256 / 16 == b / 16;
    UpperDigit(b / 16);
    UpperDigit(b % 16);
  }

  lemma UpperDigit(n: int)
    requires 0 <= n < 16
    ensures HexDigit(n) == "0123456789ABCDEF"[n]
  {
  }

  /** What decoding does with everything that is no escape, and with an escape that is cut short. */
  lemma DecodesByte(c: char, rest: string)
    ensures c != '%' ==> Decode([c] + rest) == [if c == '+' then ' ' else c] + Decode(rest)
    ensures c == '%' && |rest| < 2 ==> Decode([c] + rest) == Decode(rest)
  {
    assert ([c] + rest)[1..] == rest;
  }
}
