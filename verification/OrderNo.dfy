/**
  src/TopupUtils.cpp, encode_orderno and decode_orderno: a phone number and a time in one uint64_t.
 */
module OrderNo {

  const U32 := 0x1_0000_0000
  const U64 := 0x1_0000_0000_0000_0000
  const LOW := 0x10_0000_0000          // 2^36
  const PERIOD := 0x1000_0000          // 2^28 seconds
  const EPOCH := 1392906485
  const BASE := 10000000000

  /** The time is a uint32_t, and so is its difference to the epoch; everything else is a uint64_t. */
  function Offset(now: nat): int {
    (now % U32 - EPOCH) % U32
  }

  function EncodeOrderNo(phone: nat, now: nat): (orderNo: int)
    ensures 0 <= orderNo < U64
  {
    (Offset(now) * LOW % U64 + (phone - BASE)) % U64
  }

  /** orderno & 0xFFFFFFFFF, and the rest, as a uint64_t and a uint32_t. */
  function DecodePhone(orderNo: int): int {
    (orderNo % LOW + BASE) % U64
  }

  function DecodeTime(orderNo: int): int {
    orderNo / LOW % U32
  }

  /** The number fits in its 36 bits, the time since the epoch in the 28 bits above. */
  predicate Fits(phone: nat, now: nat) {
    BASE <= phone < BASE + LOW && Offset(now) < PERIOD
  }

  lemma EncodeFitting(phone: nat, now: nat)
    requires Fits(phone, now)
    ensures EncodeOrderNo(phone, now) == Offset(now) * LOW + (phone - BASE)
  {
    assert 0 <= Offset(now) * LOW + (phone - BASE) < U64;
  }

  /**
    Decoding gives back the phone number, and the time since the epoch (not the time), exactly if both
    fit. The phone number is a uint64_t.
   */
  lemma DecodeUndoesEncode(phone: nat, now: nat)
    requires phone < U64
    ensures DecodePhone(EncodeOrderNo(phone, now)) == phone && DecodeTime(EncodeOrderNo(phone, now)) == Offset(now)
            <==> Fits(phone, now)
  {
    var n := EncodeOrderNo(phone, now);
    assert n / LOW < PERIOD && n % LOW + BASE < U64;
    if Fits(phone, now) {
      EncodeFitting(phone, now);
    }
  }

  /** A later time since the epoch gives a larger number, whatever the phones. */
  lemma LaterIsLarger(phone: nat, now: nat, phone': nat, now': nat)
    requires Fits(phone, now) && Fits(phone', now') && Offset(now) < Offset(now')
    ensures EncodeOrderNo(phone, now) < EncodeOrderNo(phone', now')
  {
    EncodeFitting(phone, now);
    EncodeFitting(phone', now');
    assert Offset(now) + 1 <= Offset(now');
    assert Offset(now) * LOW + LOW <= Offset(now') * LOW;
  }

  /** Two orders get the same number exactly if they have the same phone and time. */
  lemma SameNumberExactly(phone: nat, now: nat, phone': nat, now': nat)
    requires Fits(phone, now) && Fits(phone', now')
    ensures EncodeOrderNo(phone, now) == EncodeOrderNo(phone', now') <==> phone == phone' && now % U32 == now' % U32
  {
    EncodeFitting(phone, now);
    EncodeFitting(phone', now');
    if EncodeOrderNo(phone, now) == EncodeOrderNo(phone', now') {
      if Offset(now) < Offset(now') {
        LaterIsLarger(phone, now, phone', now');
      } else if Offset(now') < Offset(now) {
        LaterIsLarger(phone', now', phone, now);
      }
    }
  }

  /** For about eight and a half years from the epoch on, a later order gets a larger number. */
  lemma NumbersFollowTime(phone: nat, now: nat, phone': nat, now': nat)
    requires BASE <= phone < BASE + LOW && BASE <= phone' < BASE + LOW
    requires EPOCH <= now < now' < EPOCH + PERIOD
    ensures EncodeOrderNo(phone, now) < EncodeOrderNo(phone', now')
  {
    assert Offset(now) == now - EPOCH && Offset(now') == now' - EPOCH;
    LaterIsLarger(phone, now, phone', now');
  }

  /** The top 28 bits hold the time since the epoch, modulo 2^28. */
  lemma HighBits(offset: nat)
    ensures offset % U32 * LOW % U64 == offset % PERIOD * LOW
  {
    var q, r := offset % U32 / PERIOD, offset % PERIOD;
    assert offset % U32 == q * PERIOD + r by { TwoMods(offset); }
    assert offset % U32 * LOW == q * U64 + r * LOW;
    assert 0 <= r * LOW < U64;
    WholeTurns(q, r * LOW);
  }

  lemma TwoMods(x: nat)
    ensures x % U32 == x % U32 / PERIOD * PERIOD + x % PERIOD
  {
    assert x == x / U32 * U32 + x % U32;
    assert U32 == 16 * PERIOD;
    WholePeriods(x / U32 * 16, x % U32);
  }

  lemma WholePeriods(q: nat, r: nat)
    ensures (q * PERIOD + r) % PERIOD == r % PERIOD
  {
  }

  lemma WholeTurns(q: nat, r: nat)
    requires r < U64
    ensures (q * U64 + r) % U64 == r
  {
  }

  /** After that the numbers start again: at every instant the same as one period before. */
  lemma NumbersStartAgain(phone: nat, elapsed: nat)
    ensures EncodeOrderNo(phone, EPOCH + PERIOD + elapsed) == EncodeOrderNo(phone, EPOCH + elapsed)
  {
    assert Offset(EPOCH + PERIOD + elapsed) == (PERIOD + elapsed) % U32;
    assert Offset(EPOCH + elapsed) == elapsed % U32;
    HighBits(PERIOD + elapsed);
    HighBits(elapsed);
    WholePeriods(1, elapsed);
  }

  /** In figures: the phones and the times (before 2106) for which decoding gives back what was encoded. */
  lemma DecodableExactly(phone: nat, now: nat)
    requires phone < 0x1_0000_0000_0000_0000 && now < 0x1_0000_0000
    ensures DecodePhone(EncodeOrderNo(phone, now)) == phone
            && DecodeTime(EncodeOrderNo(phone, now)) == (now - 1392906485) % 0x1_0000_0000
            <==> 10000000000 <= phone < 78719476736 && 1392906485 <= now < 1661341941
  {
    DecodeUndoesEncode(phone, now);
    Since(now);
  }

  lemma Since(now: nat)
    requires now < U32
    ensures Offset(now) < PERIOD <==> EPOCH <= now < EPOCH + PERIOD
  {
    if now < EPOCH {
      assert Offset(now) == now - EPOCH + U32;
    } else {
      assert Offset(now) == now - EPOCH;
    }
  }

  /** One number in figures: phone 13800138000 at 1404432000, the 4th of July 2014. */
  lemma OneNumber()
    ensures EncodeOrderNo(13800138000, 1404432000) == 792027363713057040
  {
  }
}
