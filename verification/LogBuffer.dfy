/**
  src/TopupUtils.h, TP_WRITE_LOG: messages are appended with snprintf to a buffer of 1024 bytes, and
  the length goes on counting what did not fit; src/TopupService.cpp writes the buffer out at the end.
 */
module LogBuffer {
  import opened CText

  const MAX_LOG_LEN := 1024

  function Concat(msgs: seq<string>): string {
    if msgs == [] then "" else Concat(msgs[..|msgs| - 1]) + msgs[|msgs| - 1]
  }

  /** log_len after some messages. */
  function LenAfter(msgs: seq<string>): nat {
    if msgs == [] then 0
    else
      var n := LenAfter(msgs[..|msgs| - 1]);
      if n < MAX_LOG_LEN then n + |msgs[|msgs| - 1]| else n
  }

  /** What of a text fits, with its terminator. */
  function Kept(text: string): string {
    if |text| < MAX_LOG_LEN then text else text[..MAX_LOG_LEN - 1]
  }

  /** log_len stays below the limit exactly if everything fits, and is then its length. */
  lemma {:induction false} LenTellsWhetherAllFits(msgs: seq<string>)
    ensures LenAfter(msgs) < MAX_LOG_LEN <==> |Concat(msgs)| < MAX_LOG_LEN
    ensures LenAfter(msgs) < MAX_LOG_LEN ==> LenAfter(msgs) == |Concat(msgs)|
  {
    if msgs != [] {
      LenTellsWhetherAllFits(msgs[..|msgs| - 1]);
    }
  }

  /** Once the limit is reached, later messages change neither the length nor what is kept. */
  lemma {:induction false} FullStaysFull(msgs: seq<string>, more: seq<string>)
    requires LenAfter(msgs) >= MAX_LOG_LEN
    ensures LenAfter(msgs + more) == LenAfter(msgs)
    ensures Kept(Concat(msgs + more)) == Kept(Concat(msgs))
    decreases |more|
  {
    if more == [] {
      assert msgs + more == msgs;
    } else {
      var init, last := more[..|more| - 1], more[|more| - 1];
      assert (msgs + more)[..|msgs + more| - 1] == msgs + init;
      FullStaysFull(msgs, init);
      LenTellsWhetherAllFits(msgs);
      LenTellsWhetherAllFits(msgs + init);
      assert Concat(msgs + more) == Concat(msgs + init) + last;
    }
  }

  lemma ConcatOneMore(msgs: seq<string>, msg: string)
    ensures Concat(msgs + [msg]) == Concat(msgs) + msg
    ensures LenAfter(msgs + [msg]) == if LenAfter(msgs) < MAX_LOG_LEN then LenAfter(msgs) + |msg| else LenAfter(msgs)
  {
    assert (msgs + [msg])[..|msgs|] == msgs;
  }

  /** snprintf: the text as far as it fits before the end, and a terminator. */
  method Snprintf(buf: array<char>, at: nat, size: nat, text: string) returns (n: nat)
    requires at + size <= buf.Length && size > 0
    modifies buf
    ensures n == |text|
    ensures var k := if |text| < size then |text| else size - 1;
            buf[..] == old(buf[..at]) + text[..k] + [NUL] + old(buf[at + k + 1..])
  {
    n := |text|;
    var k := if n < size then n else size - 1;
    for i := 0 to k
      invariant forall j :: 0 <= j < buf.Length ==> buf[j] == if at <= j < at + i then text[j - at] else old(buf[j])
    {
      buf[at + i] := text[i];
    }
    buf[at + k] := NUL;
    assert buf[..at] == old(buf[..at]) && buf[at + k + 1..] == old(buf[at + k + 1..]);
    assert buf[at..at + k] == text[..k];
    Pieces(buf[..], at, k);
  }

  lemma Pieces(buf: string, at: nat, k: nat)
    requires at + k < |buf|
    ensures buf == buf[..at] + buf[at..at + k] + [buf[at + k]] + buf[at + k + 1..]
  {
  }

  class TopupLog {
    const log: array<char>
    var logLen: nat
    ghost var msgs: seq<string>

    /** The buffer reads as everything logged, as far as it fits, once anything has been. */
    ghost predicate Valid()
      reads this, log
    {
      && log.Length == MAX_LOG_LEN
      && logLen == LenAfter(msgs) && NUL !in Concat(msgs)
      && (msgs != [] ==> Holds(log[..], Kept(Concat(msgs))))
    }

    /** The contents of the buffer to begin with do not matter. */
    constructor (log: array<char>)
      requires log.Length == MAX_LOG_LEN
      ensures Valid() && msgs == [] && this.log == log
    {
      this.log, logLen, msgs := log, 0, [];
    }

    method Write(msg: string)
      requires Valid() && NUL !in msg
      modifies this, log
      ensures Valid() && msgs == old(msgs) + [msg]
      ensures CStr(log[..]) == Kept(Concat(msgs))
      ensures var text := Concat(msgs); CStr(log[..]) == if |text| < 1024 then text else text[..1023]
    {
      hide Concat, LenAfter, CStr, Kept, Holds;
      ghost var text := Concat(msgs);
      LenTellsWhetherAllFits(msgs);
      ConcatOneMore(msgs, msg);
      if logLen < MAX_LOG_LEN {
        ghost var k := if |msg| < MAX_LOG_LEN - logLen then |msg| else MAX_LOG_LEN - logLen - 1;
        ghost var tail := log[logLen + k + 1..];
        assert log[..logLen] == text by { WholeIsKept(text); TextHeld(msgs, log[..], text, logLen); }
        var n := Snprintf(log, logLen, MAX_LOG_LEN - logLen, msg);
        logLen := logLen + n;
        AppendedIsKept(text, msg, k, tail);
      } else {
        FullStaysFull(msgs, [msg]);
        assert msgs != [] by { NothingIsShort(); }
      }
      msgs := msgs + [msg];
      KeptHasNoNul(Concat(msgs));
      HoldsReads(log[..], Kept(Concat(msgs)));
      KeptSays(Concat(msgs));
    }

    /** At the end: what is written to the log file, if anything. */
    method Flush() returns (line: Option<string>)
      requires Valid()
      modifies log
      ensures Valid()
      ensures var text := Concat(msgs); line == if 0 < |text| < 1024 then Some(text) else None
    {
      hide Concat, LenAfter, CStr, Kept;
      line := None;
      LenTellsWhetherAllFits(msgs);
      NothingIsShort();
      if logLen > 0 && logLen < MAX_LOG_LEN {
        ghost var text := Concat(msgs);
        WholeIsKept(text);
        log[logLen] := NUL;
        HoldsReads(log[..], text);
        line := Some(CStr(log[..]));
      } else {
        assert 0 < |Concat(msgs)| < MAX_LOG_LEN ==> false;
      }
    }
  }

  /** A buffer that begins with a text and its terminator. */
  predicate Holds(buf: string, text: string) {
    |text| < |buf| && buf[..|text|] == text && buf[|text|] == NUL
  }

  lemma HoldsReads(buf: string, text: string)
    requires Holds(buf, text) && NUL !in text
    ensures CStr(buf) == text
  {
    CStrTerminated(text, buf[|text| + 1..]);
    assert buf == text + [NUL] + buf[|text| + 1..];
  }

  lemma NothingIsShort()
    ensures LenAfter([]) == 0 && Concat([]) == ""
  {
  }

  lemma WholeIsKept(text: string)
    ensures |text| < MAX_LOG_LEN ==> Kept(text) == text
  {
  }

  lemma KeptSays(text: string)
    ensures Kept(text) == if |text| < 1024 then text else text[..1023]
  {
  }

  lemma KeptHasNoNul(text: string)
    requires NUL !in text
    ensures NUL !in Kept(text)
  {
  }

  lemma TextHeld(msgs: seq<string>, buf: string, text: string, n: nat)
    requires text == Concat(msgs) && n == |text| <= |buf| && (msgs != [] ==> Holds(buf, text))
    ensures buf[..n] == text
  {
  }

  /** The buffer after a message was appended. */
  lemma AppendedIsKept(text: string, msg: string, k: nat, tail: string)
    requires |text| < MAX_LOG_LEN && |tail| == MAX_LOG_LEN - |text| - k - 1
    requires k == if |msg| < MAX_LOG_LEN - |text| then |msg| else MAX_LOG_LEN - |text| - 1
    ensures Holds(text + msg[..k] + [NUL] + tail, Kept(text + msg))
  {
    var all := text + msg;
    assert Kept(all) == text + msg[..k];
    assert (text + msg[..k] + [NUL] + tail)[..|text| + k] == text + msg[..k];
  }
}
