/** Sharded and chronological keys (sharded_keygen.py): bit fields written into the bytes of a
    UUID with the version and variant of sections 4.1 and 5.8 of RFC 9562, in YDB's layout. */
module ShardedKey {
  import opened BitOps

  type Byte = b: int | 0 <= b < 256

  const UUID_LEN: nat := 16
  const PREFIX_BITS: nat := 10
  const SHARDED_TIMESTAMP_BITS: nat := 30
  const SHARDED_TIMESTAMP_SHIFT: nat := 64 - PREFIX_BITS - SHARDED_TIMESTAMP_BITS
  const UUID_VERSION_BYTE: int := 0x80

  function PrefixMsbMask(): int {
    Shl(Shl(1, PREFIX_BITS) - 1, 64 - PREFIX_BITS)
  }

  function PrefixParamMask(): int {
    Shl(1, PREFIX_BITS) - 1
  }

  function TimestampMask(): int {
    Shl(Shl(1, SHARDED_TIMESTAMP_BITS) - 1, SHARDED_TIMESTAMP_SHIFT)
  }

  // ---------- big-endian numbers ----------

  function Number(s: seq<Byte>): nat {
    if s == [] then 0 else Number(s[..|s| - 1]) * 256 + s[|s| - 1]
  }

  function Digits(value: int, n: nat): (r: seq<Byte>)
    ensures |r| == n
    decreases n
  {
    if n == 0 then [] else Digits(value / 256, n - 1) + [value % 256]
  }

  lemma {:induction false} DigitsOfNumber(s: seq<Byte>)
    ensures Digits(Number(s), |s|) == s
  {
    if s != [] {
      DigitsOfNumber(s[..|s| - 1]);
      assert Number(s) / 256 == Number(s[..|s| - 1]) && Number(s) % 256 == s[|s| - 1];
    }
  }

  lemma PowByte(n: nat)
    requires n > 0
    ensures Pow2(8 * n) == 256 * Pow2(8 * (n - 1))
  {
    hide Pow2;
    PowValues();
    PowAdd(8, 8 * (n - 1));
  }

  lemma {:induction false} NumberOfDigits(value: int, n: nat)
    ensures Number(Digits(value, n)) == value % Pow2(8 * n)
    decreases n
  {
    if n > 0 {
      NumberOfDigits(value / 256, n - 1);
      PowByte(n);
      SplitMod(value, Pow2(8 * (n - 1)));
      assert Digits(value, n)[..n - 1] == Digits(value / 256, n - 1);
    }
  }

  lemma SplitMod(value: int, p: nat)
    requires p > 0
    ensures ((value / 256) % p) * 256 + value % 256 == value % (256 * p)
  {
    var q, r := (value / 256) / p, (value / 256) % p;
    assert value == (q * p + r) * 256 + value % 256;
    assert value == q * (256 * p) + (r * 256 + value % 256) by { assert (q * p) * 256 == q * (256 * p); }
    DivModUnique(value, 256 * p, q, r * 256 + value % 256);
  }

  lemma NumberBelow(s: seq<Byte>)
    ensures Number(s) < Pow2(8 * |s|)
  {
    DigitsOfNumber(s);
    NumberOfDigits(Number(s), |s|);
  }

  lemma NumberBelow64(s: seq<Byte>)
    requires |s| == 8
    ensures 0 <= Number(s) < 0x1_0000_0000_0000_0000
  {
    PowValues();
    NumberBelow(s);
  }

  // ---------- the bit expressions of the source ----------

  function PrefixParamToMsb(prefix: int): int {
    Shl(And(prefix, PrefixParamMask()), 64 - PREFIX_BITS)
  }

  function TimestampCode(epoch: int): int {
    Shl(epoch % Shl(1, SHARDED_TIMESTAMP_BITS), SHARDED_TIMESTAMP_SHIFT)
  }

  function UpdateMsbSharded(msb: int, prefix: int, epoch: int, hasPrefix: bool): int {
    var code := TimestampCode(epoch);
    if hasPrefix then
      Or(And(msb, Not(Or(PrefixMsbMask(), TimestampMask()))),
         Or(PrefixParamToMsb(prefix), And(code, TimestampMask())))
    else
      Or(And(msb, Not(TimestampMask())), And(code, TimestampMask()))
  }

  function ExtractPrefix(msb: int): int {
    Shr(And(msb, PrefixMsbMask()), 64 - PREFIX_BITS)
  }

  function ReplacePrefix(msb: int, prefix: int): int {
    Or(And(msb, Not(PrefixMsbMask())), PrefixParamToMsb(prefix))
  }

  // ---------- what they come to ----------

  /** The three fields of the first eight bytes: 10 bits of prefix, 30 of time, 24 at random. */
  function Pack(top: int, time: int, low: int): int {
    top * 0x40_0000_0000_0000 + time * 0x100_0000 + low
  }

  function Top(msb: int): int {
    msb / 0x40_0000_0000_0000
  }

  lemma Masks()
    ensures PrefixMsbMask() == (Pow2(10) - 1) * Pow2(54) == 0x3FF * 0x40_0000_0000_0000
    ensures TimestampMask() == (Pow2(30) - 1) * Pow2(24) == 0x3FFF_FFFF * 0x100_0000
    ensures PrefixParamMask() == Pow2(10) - 1 == 0x3FF
  {
    PowValues();
  }

  lemma PrefixPart(prefix: int)
    ensures PrefixParamToMsb(prefix) == prefix % 0x400 * 0x40_0000_0000_0000
  {
    hide And;
    Masks();
    PowValues();
    AndLow(prefix, 10);
  }

  lemma TimePart(epoch: int)
    ensures And(TimestampCode(epoch), TimestampMask()) == epoch % 0x4000_0000 * 0x100_0000
  {
    hide And;
    Masks();
    PowValues();
    var t := epoch % 0x4000_0000;
    assert TimestampCode(epoch) == t * 0x100_0000;
    AndField(t * 0x100_0000, 30, 24);
    assert t * 0x100_0000 / 0x100_0000 == t;
  }

  lemma KeepLow(msb: int)
    requires 0 <= msb < 0x1_0000_0000_0000_0000
    ensures And(msb, Not(Or(PrefixMsbMask(), TimestampMask()))) == msb % 0x100_0000
  {
    hide And, Or;
    Masks();
    PowValues();
    OrJoin(0x3FF, TimestampMask(), 54);
    var both := Or(PrefixMsbMask(), TimestampMask());
    assert both == (Pow2(40) - 1) * Pow2(24);
    AndField(msb, 40, 24);
    AndNot(msb, both);
    assert msb / 0x100_0000 < 0x100_0000_0000;
  }

  lemma KeepOutside(msb: int)
    requires 0 <= msb < 0x1_0000_0000_0000_0000
    ensures And(msb, Not(TimestampMask())) == Top(msb) * 0x40_0000_0000_0000 + msb % 0x100_0000
  {
    hide And;
    Masks();
    PowValues();
    AndField(msb, 30, 24);
    AndNot(msb, TimestampMask());
    assert msb / 0x100_0000 / 0x4000_0000 == Top(msb);
  }

  /** The masks and shifts write exactly the fields: the time always, the prefix if it is
      wanted, and nothing else of what was there. */
  lemma SharpFields(msb: int, prefix: int, epoch: int, hasPrefix: bool)
    requires 0 <= msb < 0x1_0000_0000_0000_0000
    ensures UpdateMsbSharded(msb, prefix, epoch, hasPrefix) ==
            Pack(if hasPrefix then prefix % 0x400 else Top(msb), epoch % 0x4000_0000, msb % 0x100_0000)
  {
    hide And, Or, PrefixMsbMask, TimestampMask, PrefixParamToMsb, TimestampCode;
    PowValues();
    var t, low := epoch % 0x4000_0000, msb % 0x100_0000;
    TimePart(epoch);
    if hasPrefix {
      var p := prefix % 0x400;
      PrefixPart(prefix);
      KeepLow(msb);
      OrJoin(p, t * 0x100_0000, 54);
      OrJoin(p * 0x4000_0000 + t, low, 24);
    } else {
      KeepOutside(msb);
      OrSplit(Top(msb) * 0x4000_0000, low, t, 0, 24);
      OrJoin(Top(msb), t, 30);
      OrZero(low);
    }
  }

  lemma ExtractIsTop(msb: int)
    requires 0 <= msb < 0x1_0000_0000_0000_0000
    ensures ExtractPrefix(msb) == Top(msb)
  {
    hide And;
    Masks();
    PowValues();
    AndField(msb, 10, 54);
    var top := Top(msb);
    assert msb / 0x40_0000_0000_0000 % 0x400 == top;
    assert top * 0x40_0000_0000_0000 / 0x40_0000_0000_0000 == top;
  }

  lemma ReplacePrefixOnly(msb: int, prefix: int)
    requires 0 <= msb < 0x1_0000_0000_0000_0000
    ensures ReplacePrefix(msb, prefix) == prefix % 0x400 * 0x40_0000_0000_0000 + msb % 0x40_0000_0000_0000
  {
    hide And, Or;
    Masks();
    PowValues();
    AndField(msb, 10, 54);
    hide PrefixMsbMask, PrefixParamToMsb;
    AndNot(msb, PrefixMsbMask());
    PrefixPart(prefix);
    OrJoin(prefix % 0x400, msb % 0x40_0000_0000_0000, 54);
  }
}
