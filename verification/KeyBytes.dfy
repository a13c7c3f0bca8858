/** Making the sixteen bytes of a key in place, and what order the bytes are in
    (sharded_keygen.py). */
module KeyBytes {
  import opened BitOps
  import opened ShardedKey

  function Stamped(s: seq<Byte>): (r: seq<Byte>)
    requires |s| == UUID_LEN
    ensures |r| == UUID_LEN
  {
    s[7 := 0x80 + s[7] % 16][8 := 0x80 + s[8] % 64]
  }

  function WithFirst8(value: int, s: seq<Byte>): (r: seq<Byte>)
    requires |s| == UUID_LEN
    ensures |r| == UUID_LEN && r[..8] == Digits(value, 8) && r[8..] == s[8..]
  {
    Digits(value, 8) + s[8..]
  }

  function First8(s: seq<Byte>): nat
    requires |s| >= 8
  {
    Number(s[..8])
  }

  function Sharded(prefix: int, epoch: int, hasPrefix: bool, fill: seq<Byte>): (r: seq<Byte>)
    requires |fill| == UUID_LEN
    ensures |r| == UUID_LEN
  {
    WithFirst8(UpdateMsbSharded(First8(Stamped(fill)), prefix, epoch, hasPrefix), Stamped(fill))
  }

  function Chrono(prefix: int, ms: int, hasPrefix: bool, fill: seq<Byte>): (r: seq<Byte>)
    requires |fill| == UUID_LEN
    ensures |r| == UUID_LEN
  {
    var base := Stamped(Digits(ms, 6) + fill[6..]);
    if hasPrefix then WithFirst8(ReplacePrefix(First8(base), prefix), base) else base
  }

  // ---------- the methods of the source ----------

  lemma StampBits(b: Byte)
    ensures Or(And(b, 0x0F), UUID_VERSION_BYTE) == 0x80 + b % 16
    ensures Or(And(b, 0x3F), 0x80) == 0x80 + b % 64
  {
    hide And, Or;
    PowValues();
    AndLow(b, 4);
    AndLow(b, 6);
    OrJoin(8, b % 16, 4);
    OrJoin(2, b % 64, 6);
  }

  method SetUuidVersionAndVariant(result: array<Byte>)
    requires result.Length == UUID_LEN
    modifies result
    ensures result[..] == Stamped(old(result[..]))
  {
    hide And, Or;
    StampBits(result[7]);
    StampBits(result[8]);
    result[7] := Or(And(result[7], 0x0F), UUID_VERSION_BYTE);
    result[8] := Or(And(result[8], 0x3F), 0x80);
  }

  method WriteBe64(value: int, data: array<Byte>, offset: nat)
    requires offset + 8 <= data.Length
    modifies data
    ensures data[..] == old(data[..offset]) + Digits(value % 0x1_0000_0000_0000_0000, 8) + old(data[offset + 8..])
  {
    hide And, Pow2, Digits;
    var digits := Digits(And(value, 0xFFFF_FFFF_FFFF_FFFF), 8);
    PowValues();
    AndLow(value, 64);
    for i := 0 to 8
      invariant data[..offset] == old(data[..offset]) && data[offset + 8..] == old(data[offset + 8..])
      invariant forall k :: 0 <= k < i ==> data[offset + k] == digits[k]
    {
      data[offset + i] := digits[i];
    }
    assert data[..] == data[..offset] + data[offset..offset + 8] + data[offset + 8..];
    assert data[offset..offset + 8] == digits;
  }

  method UpdateMsbChrono(result: array<Byte>, prefix: int)
    requires result.Length == UUID_LEN
    modifies result
    ensures result[..] == WithFirst8(ReplacePrefix(First8(old(result[..])), prefix), old(result[..]))
  {
    hide And, Or, Digits, Number, ReplacePrefix, PrefixMsbMask, PrefixParamToMsb;
    var msb := Number(result[0..8]);
    assert result[0..8] == result[..][..8];
    NumberBelow64(result[..][..8]);
    var next := ReplacePrefix(msb, prefix);
    ReplacePrefixOnly(msb, prefix);
    WriteBe64(next, result, 0);
  }

  method MakeShardedUuidBytes(prefix: int, epoch: int, hasPrefix: bool, fill: seq<Byte>) returns (key: seq<Byte>)
    requires |fill| == UUID_LEN
    ensures key == Sharded(prefix, epoch, hasPrefix, fill)
  {
    hide Digits, Number, UpdateMsbSharded;
    var result := new Byte[UUID_LEN](i requires 0 <= i < UUID_LEN => fill[i]);
    assert result[..] == fill;
    SetUuidVersionAndVariant(result);
    var msb := Number(result[0..8]);
    assert result[0..8] == result[..][..8];
    NumberBelow64(result[..][..8]);
    SharpFields(msb, prefix, epoch, hasPrefix);
    msb := UpdateMsbSharded(msb, prefix, epoch, hasPrefix);
    WriteBe64(msb, result, 0);
    key := result[..];
  }

  lemma DivTwice(value: int, p: nat)
    requires p > 0
    ensures value / p / 256 == value / (256 * p)
  {
    var q, r, m := value / p / 256, value / p % 256, value % p;
    Nested(q, r, p, m);
    NestedBelow(r, p, m);
    assert value == (q * 256 + r) * p + m;
    DivModUnique(value, 256 * p, q, r * p + m);
  }

  lemma Nested(q: int, r: int, p: int, m: int)
    ensures (q * 256 + r) * p + m == q * (256 * p) + (r * p + m)
  {
  }

  lemma NestedBelow(r: int, p: int, m: int)
    requires 0 <= r < 256 && 0 <= m < p
    ensures 0 <= r * p + m < 256 * p
  {
    assert 0 <= r * p <= 255 * p;
  }

  /** The bytes of the time, each by its own shift. */
  function TimeBytes(ms: int): seq<int> {
    [And(Shr(ms, 40), 0xFF), And(Shr(ms, 32), 0xFF), And(Shr(ms, 24), 0xFF),
     And(Shr(ms, 16), 0xFF), And(Shr(ms, 8), 0xFF), And(ms, 0xFF)]
  }

  lemma DigitsStep(value: int, n: nat)
    ensures Digits(value, n + 1) == Digits(value / 256, n) + [value % 256]
    ensures Digits(value, 0) == []
  {
  }

  lemma ShiftedByte(value: int, n: nat)
    ensures And(Shr(value, n), 0xFF) == Shr(value, n) % 256
    ensures Shr(value, n) / 256 == Shr(value, n + 8)
    ensures Shr(value, 0) == value
  {
    hide And;
    PowValues();
    AndLow(Shr(value, n), 8);
    PowAdd(8, n);
    DivTwice(value, Pow2(n));
  }

  lemma LowByteInRange()
    ensures forall v :: 0 <= And(v, 0xFF) < 256
  {
    hide And;
    PowValues();
    forall v
      ensures 0 <= And(v, 0xFF) < 256
    {
      AndLow(v, 8);
    }
  }

  lemma TimeBytesAreDigits(ms: int)
    ensures Digits(ms, 6) == TimeBytes(ms)
  {
    hide Digits, And, Shr;
    ShiftedByte(ms, 0);
    ShiftedByte(ms, 8);
    ShiftedByte(ms, 16);
    ShiftedByte(ms, 24);
    ShiftedByte(ms, 32);
    ShiftedByte(ms, 40);
    DigitsStep(ms, 5);
    DigitsStep(Shr(ms, 8), 4);
    DigitsStep(Shr(ms, 16), 3);
    DigitsStep(Shr(ms, 24), 2);
    DigitsStep(Shr(ms, 32), 1);
    DigitsStep(Shr(ms, 40), 0);
  }

  method MakeChronoUuidBytes(prefix: int, ms: int, hasPrefix: bool, fill: seq<Byte>) returns (key: seq<Byte>)
    requires |fill| == UUID_LEN
    ensures key == Chrono(prefix, ms, hasPrefix, fill)
  {
    hide Digits, Number, And, Shr, ReplacePrefix, Stamped;
    TimeBytesAreDigits(ms);
    LowByteInRange();
    ghost var time := Digits(ms, 6);
    var result := new Byte[UUID_LEN](i requires 0 <= i < UUID_LEN => fill[i]);
    result[0] := And(Shr(ms, 40), 0xFF);
    result[1] := And(Shr(ms, 32), 0xFF);
    result[2] := And(Shr(ms, 24), 0xFF);
    result[3] := And(Shr(ms, 16), 0xFF);
    result[4] := And(Shr(ms, 8), 0xFF);
    result[5] := And(ms, 0xFF);
    assert result[..6] == time && result[6..] == fill[6..];
    assert result[..] == result[..6] + result[6..];
    SetUuidVersionAndVariant(result);
    if hasPrefix {
      UpdateMsbChrono(result, prefix);
    }
    key := result[..];
  }

  // ---------- comparison ----------

  function Compare(a: seq<Byte>, b: seq<Byte>): int {
    if a == [] || b == [] then 0
    else if a[0] < b[0] then -1
    else if a[0] > b[0] then 1
    else Compare(a[1..], b[1..])
  }

  method CompareUuidBytes(a: seq<Byte>, b: seq<Byte>) returns (r: int)
    ensures r == Compare(a, b)
  {
    var n := if |a| < |b| then |a| else |b|;
    assert a[0..] == a && b[0..] == b;
    for i := 0 to n
      invariant Compare(a, b) == Compare(a[i..], b[i..])
    {
      assert a[i..][1..] == a[i + 1..] && b[i..][1..] == b[i + 1..];
      if a[i] < b[i] {
        return -1;
      }
      if a[i] > b[i] {
        return 1;
      }
    }
    return 0;
  }

  function Sign(x: int): int {
    if x < 0 then -1 else if x > 0 then 1 else 0
  }

  lemma {:induction false} NumberHead(s: seq<Byte>)
    requires s != []
    ensures Number(s) == s[0] * Pow2(8 * (|s| - 1)) + Number(s[1..])
  {
    if |s| == 1 {
      assert s[..0] == [] && s[1..] == [];
    } else {
      var init := s[..|s| - 1];
      NumberHead(init);
      assert s[1..][..|s| - 2] == init[1..];
      hide Pow2;
      PowByte(|s| - 1);
      Scaled(s[0], Pow2(8 * (|s| - 2)));
    }
  }

  lemma Scaled(a: int, p: int)
    ensures a * (256 * p) == 256 * (a * p)
  {
  }

  lemma HeadDecides(x: int, y: int, p: nat, a: nat, b: nat)
    requires x < y && a < p && p > 0
    ensures x * p + a < y * p + b
  {
    Multiples(y - x, p);
    assert (y - x) * p == y * p - x * p;
  }

  /** Comparing byte by byte is comparing the numbers. */
  lemma {:induction false} CompareIsNumeric(a: seq<Byte>, b: seq<Byte>)
    requires |a| == |b|
    ensures Compare(a, b) == Sign(Number(a) - Number(b))
  {
    hide Number;
    if a == [] {
      assert b == [];
    } else {
      NumberHead(a);
      NumberHead(b);
      NumberBelow(a[1..]);
      NumberBelow(b[1..]);
      var p := Pow2(8 * (|a| - 1));
      if a[0] < b[0] {
        HeadDecides(a[0], b[0], p, Number(a[1..]), Number(b[1..]));
      } else if a[0] > b[0] {
        HeadDecides(b[0], a[0], p, Number(b[1..]), Number(a[1..]));
      } else {
        CompareIsNumeric(a[1..], b[1..]);
      }
    }
  }

  lemma {:induction false} CompareSplit(a: seq<Byte>, b: seq<Byte>, n: nat)
    requires n <= |a| && n <= |b|
    ensures Compare(a, b) == if Compare(a[..n], b[..n]) != 0 then Compare(a[..n], b[..n]) else Compare(a[n..], b[n..])
  {
    if n > 0 {
      assert a[..n][1..] == a[1..][..n - 1] && b[..n][1..] == b[1..][..n - 1];
      assert a[1..][n - 1..] == a[n..] && b[1..][n - 1..] == b[n..];
      CompareSplit(a[1..], b[1..], n - 1);
    }
  }

  /** The first eight bytes decide when they differ. */
  lemma First8Decides(a: seq<Byte>, b: seq<Byte>)
    requires |a| == |b| == UUID_LEN
    ensures First8(a) < First8(b) ==> Compare(a, b) == -1
    ensures First8(a) > First8(b) ==> Compare(a, b) == 1
  {
    hide Number;
    CompareSplit(a, b, 8);
    CompareIsNumeric(a[..8], b[..8]);
  }

  // ---------- sharded keys ----------

  lemma First8Written(value: int, s: seq<Byte>)
    requires |s| == UUID_LEN && 0 <= value < 0x1_0000_0000_0000_0000
    ensures First8(WithFirst8(value, s)) == value
  {
    hide Number, Digits;
    PowValues();
    NumberOfDigits(value, 8);
  }

  lemma {:induction false} LowBytes(v: int, w: int, n: nat, m: nat)
    requires m <= n && v % Pow2(8 * m) == w % Pow2(8 * m)
    ensures Digits(v, n)[n - m..] == Digits(w, n)[n - m..]
    decreases n
  {
    if m > 0 {
      PowByte(m);
      SplitMod(v, Pow2(8 * (m - 1)));
      SplitMod(w, Pow2(8 * (m - 1)));
      LowBytes(v / 256, w / 256, n - 1, m - 1);
      assert Digits(v, n)[n - m..] == Digits(v / 256, n - 1)[n - m..] + [v % 256];
      assert Digits(w, n)[n - m..] == Digits(w / 256, n - 1)[n - m..] + [w % 256];
    }
  }

  /** The fields of a sharded key: the prefix and the second where the layout puts them. */
  lemma ShardedFields(prefix: int, epoch: int, hasPrefix: bool, fill: seq<Byte>)
    requires |fill| == UUID_LEN
    ensures var top := if hasPrefix then prefix % 0x400 else Top(First8(fill));
            var low := First8(Stamped(fill)) % 0x100_0000;
            First8(Sharded(prefix, epoch, hasPrefix, fill)) == Pack(top, epoch % 0x4000_0000, low)
  {
    hide Number, Digits, UpdateMsbSharded;
    var msb := First8(Stamped(fill));
    NumberBelow64(Stamped(fill)[..8]);
    NumberBelow64(fill[..8]);
    SharpFields(msb, prefix, epoch, hasPrefix);
    TopOfStamped(fill);
    First8Written(UpdateMsbSharded(msb, prefix, epoch, hasPrefix), Stamped(fill));
  }

  lemma LastByte(s: seq<Byte>)
    requires |s| == UUID_LEN
    ensures First8(s) == Number(s[..7]) * 256 + s[7]
  {
    var eight := s[..8];
    assert eight[..7] == s[..7] && eight[7] == s[7] && eight != [] && |eight| - 1 == 7;
  }

  lemma TopAbove(n: nat, b: Byte)
    ensures Top(n * 256 + b) == n / 0x4000_0000_0000
  {
    var v: int := n * 256 + b;
    assert v / 256 == n;
    assert v / 256 / 0x4000_0000_0000 == v / 0x40_0000_0000_0000;
  }

  lemma TopOfStamped(fill: seq<Byte>)
    requires |fill| == UUID_LEN
    ensures Top(First8(Stamped(fill))) == Top(First8(fill))
  {
    hide Number, Top, First8;
    assert Stamped(fill)[..7] == fill[..7];
    LastByte(Stamped(fill));
    LastByte(fill);
    TopAbove(Number(fill[..7]), Stamped(fill)[7]);
    TopAbove(Number(fill[..7]), fill[7]);
  }

  /** Any random fill: the prefix and the time read back, the version and variant are there,
      and every bit that is none of these is still the random one. */
  lemma ShardedKeyReadsBack(prefix: int, epoch: int, hasPrefix: bool, fill: seq<Byte>)
    requires |fill| == UUID_LEN
    ensures var key := Sharded(prefix, epoch, hasPrefix, fill);
            && ExtractPrefix(First8(key)) == (if hasPrefix then prefix % 0x400 else ExtractPrefix(First8(fill)))
            && First8(key) / 0x100_0000 % 0x4000_0000 == epoch % 0x4000_0000
            && key[7] / 16 == 8 && key[8] / 64 == 2
            && key[7] % 16 == fill[7] % 16 && key[8] % 64 == fill[8] % 64
            && key[5..7] == fill[5..7] && key[9..] == fill[9..]
  {
    hide Sharded, First8, ExtractPrefix;
    ShardedPrefixAndTime(prefix, epoch, hasPrefix, fill);
    var key := Sharded(prefix, epoch, hasPrefix, fill);
    LowThree(key, Stamped(fill));
    ShardedTail(prefix, epoch, hasPrefix, fill);
    StampedRest(key, fill);
  }

  lemma PackedFields(top: int, time: int, low: int)
    requires 0 <= top < 0x400 && 0 <= time < 0x4000_0000 && 0 <= low < 0x100_0000
    ensures var n := Pack(top, time, low);
            Top(n) == top && n / 0x100_0000 % 0x4000_0000 == time && n % 0x100_0000 == low
  {
    var n := Pack(top, time, low);
    DivModUnique(n, 0x40_0000_0000_0000, top, time * 0x100_0000 + low);
    DivModUnique(n, 0x100_0000, top * 0x4000_0000 + time, low);
    DivModUnique(top * 0x4000_0000 + time, 0x4000_0000, top, time);
  }

  lemma ShardedPrefixAndTime(prefix: int, epoch: int, hasPrefix: bool, fill: seq<Byte>)
    requires |fill| == UUID_LEN
    ensures var key := Sharded(prefix, epoch, hasPrefix, fill);
            && ExtractPrefix(First8(key)) == (if hasPrefix then prefix % 0x400 else ExtractPrefix(First8(fill)))
            && First8(key) / 0x100_0000 % 0x4000_0000 == epoch % 0x4000_0000
            && First8(key) % 0x100_0000 == First8(Stamped(fill)) % 0x100_0000
  {
    hide Sharded, First8, ExtractPrefix, Stamped;
    var key := Sharded(prefix, epoch, hasPrefix, fill);
    ShardedFields(prefix, epoch, hasPrefix, fill);
    Below(key);
    Below(fill);
    Below(Stamped(fill));
    ExtractIsTop(First8(key));
    ExtractIsTop(First8(fill));
    PackedFields(if hasPrefix then prefix % 0x400 else Top(First8(fill)), epoch % 0x4000_0000,
      First8(Stamped(fill)) % 0x100_0000);
  }

  lemma ShardedTail(prefix: int, epoch: int, hasPrefix: bool, fill: seq<Byte>)
    requires |fill| == UUID_LEN
    ensures Sharded(prefix, epoch, hasPrefix, fill)[8..] == Stamped(fill)[8..]
  {
    hide Number, UpdateMsbSharded, Digits, Stamped;
  }

  /** A key that agrees with a stamped one in its fields outside prefix and time. */
  lemma StampedRest(key: seq<Byte>, fill: seq<Byte>)
    requires |key| == |fill| == UUID_LEN
    requires key[5..8] == Stamped(fill)[5..8] && key[8..] == Stamped(fill)[8..]
    ensures key[7] / 16 == 8 && key[8] / 64 == 2 && key[7] % 16 == fill[7] % 16 && key[8] % 64 == fill[8] % 64
    ensures key[5..7] == fill[5..7] && key[9..] == fill[9..]
  {
    var s := Stamped(fill);
    assert key[7] == key[5..8][2] == s[5..8][2] == s[7];
    assert key[8] == key[8..][0] == s[8..][0] == s[8];
    assert key[5..7] == key[5..8][..2] && s[5..7] == s[5..8][..2] && s[5..7] == fill[5..7];
    assert key[9..] == key[8..][1..] && s[9..] == s[8..][1..] && s[9..] == fill[9..];
  }

  lemma LowThree(a: seq<Byte>, b: seq<Byte>)
    requires |a| == |b| == UUID_LEN && First8(a) % 0x100_0000 == First8(b) % 0x100_0000
    ensures a[5..8] == b[5..8]
  {
    hide Number, Digits;
    PowValues();
    DigitsOfNumber(a[..8]);
    DigitsOfNumber(b[..8]);
    LowBytes(First8(a), First8(b), 8, 3);
    assert a[5..8] == a[..8][5..] && b[5..8] == b[..8][5..];
  }

  /** Keys go by prefix first, and inside a prefix by the second they were made in, whatever
      the random bytes are. */
  lemma ShardedKeysInOrder(prefix: int, epoch: int, fill: seq<Byte>, prefix': int, epoch': int, fill': seq<Byte>)
    requires |fill| == |fill'| == UUID_LEN
    ensures var r := Compare(Sharded(prefix, epoch, true, fill), Sharded(prefix', epoch', true, fill'));
            && (prefix % 0x400 != prefix' % 0x400 ==> r == Sign(prefix % 0x400 - prefix' % 0x400))
            && (prefix % 0x400 == prefix' % 0x400 && epoch % 0x4000_0000 != epoch' % 0x4000_0000 ==>
                  r == Sign(epoch % 0x4000_0000 - epoch' % 0x4000_0000))
  {
    hide Sharded, First8, Compare;
    ShardedFields(prefix, epoch, true, fill);
    ShardedFields(prefix', epoch', true, fill');
    First8Decides(Sharded(prefix, epoch, true, fill), Sharded(prefix', epoch', true, fill'));
  }

  /** Inside one window of 2^30 seconds a later key is greater; it is smaller if the window
      ends between the two and they are less than 2^30 seconds apart. */
  lemma LaterIsGreater(prefix: int, epoch: int, fill: seq<Byte>, epoch': int, fill': seq<Byte>)
    requires |fill| == |fill'| == UUID_LEN && epoch < epoch' < epoch + 0x4000_0000
    ensures var r := Compare(Sharded(prefix, epoch, true, fill), Sharded(prefix, epoch', true, fill'));
            if epoch / 0x4000_0000 == epoch' / 0x4000_0000 then r == -1 else r == 1
  {
    hide Sharded, Compare;
    ShardedKeysInOrder(prefix, epoch, fill, prefix, epoch', fill');
  }

  lemma CompareSame(a: seq<Byte>)
    ensures Compare(a, a) == 0
  {
  }

  /** However far apart two seconds are: the key of the second one is greater for all random
      fills if and only if it comes later in its window of 2^30 seconds. */
  lemma GreaterForEveryFill(prefix: int, epoch: int, epoch': int)
    ensures (forall fill: seq<Byte>, fill': seq<Byte> :: |fill| == |fill'| == UUID_LEN ==>
               Compare(Sharded(prefix, epoch, true, fill), Sharded(prefix, epoch', true, fill')) == -1)
            <==> epoch % 0x4000_0000 < epoch' % 0x4000_0000
  {
    hide Sharded, Compare;
    forall fill: seq<Byte>, fill': seq<Byte> | |fill| == |fill'| == UUID_LEN
      ensures epoch % 0x4000_0000 < epoch' % 0x4000_0000 ==>
                Compare(Sharded(prefix, epoch, true, fill), Sharded(prefix, epoch', true, fill')) == -1
    {
      ShardedKeysInOrder(prefix, epoch, fill, prefix, epoch', fill');
    }
    if epoch % 0x4000_0000 >= epoch' % 0x4000_0000 {
      var fill: seq<Byte> := seq(UUID_LEN, _ => 0);
      ShardedKeysInOrder(prefix, epoch, fill, prefix, epoch', fill);
      if epoch % 0x4000_0000 == epoch' % 0x4000_0000 {
        SameSecondSameKey(prefix, epoch, epoch', fill);
        CompareSame(Sharded(prefix, epoch, true, fill));
      }
    }
  }

  lemma SameSecondSameKey(prefix: int, epoch: int, epoch': int, fill: seq<Byte>)
    requires |fill| == UUID_LEN && epoch % 0x4000_0000 == epoch' % 0x4000_0000
    ensures Sharded(prefix, epoch, true, fill) == Sharded(prefix, epoch', true, fill)
  {
    hide Number, Digits, UpdateMsbSharded, Stamped;
    var msb := First8(Stamped(fill));
    NumberBelow64(Stamped(fill)[..8]);
    SharpFields(msb, prefix, epoch, true);
    SharpFields(msb, prefix, epoch', true);
  }

  // ---------- chronological keys ----------

  lemma TwoLastBytes(s: seq<Byte>)
    requires |s| == UUID_LEN
    ensures First8(s) == Number(s[..6]) * 0x1_0000 + (s[6] as int) * 256 + s[7]
  {
    LastByte(s);
    var seven := s[..7];
    assert seven[..6] == s[..6] && seven[6] == s[6] && seven != [] && |seven| - 1 == 6;
  }

  lemma ChronoBase(ms: int, fill: seq<Byte>) returns (low: int)
    requires |fill| == UUID_LEN
    ensures 0 <= low < 0x1_0000 &&
            First8(Stamped(Digits(ms, 6) + fill[6..])) == ms % 0x1_0000_0000_0000 * 0x1_0000 + low
  {
    hide Digits, Number, First8;
    var base := Stamped(Digits(ms, 6) + fill[6..]);
    TwoLastBytes(base);
    assert base[..6] == Digits(ms, 6);
    PowValues();
    PowAdd(24, 24);
    NumberOfDigits(ms, 6);
    low := (base[6] as int) * 256 + base[7];
  }

  /** A chronological key: the milliseconds modulo 2^48 first, with the prefix over their top
      ten bits if it is wanted. */
  lemma ChronoFields(prefix: int, ms: int, hasPrefix: bool, fill: seq<Byte>)
    requires |fill| == UUID_LEN
    ensures First8(Chrono(prefix, ms, hasPrefix, fill)) / 0x1_0000 ==
            if hasPrefix then prefix % 0x400 * 0x40_0000_0000 + ms % 0x40_0000_0000 else ms % 0x1_0000_0000_0000
  {
    hide Digits, Number, ReplacePrefix, First8, Stamped;
    var base := Stamped(Digits(ms, 6) + fill[6..]);
    var low := ChronoBase(ms, fill);
    if hasPrefix {
      Below(base);
      var msb := First8(base);
      ReplacePrefixOnly(msb, prefix);
      First8Written(ReplacePrefix(msb, prefix), base);
      ChronoArithmetic(prefix % 0x400, ms, low);
    }
  }

  lemma Below(s: seq<Byte>)
    requires |s| == UUID_LEN
    ensures First8(s) < 0x1_0000_0000_0000_0000
  {
    NumberBelow64(s[..8]);
  }

  lemma ChronoArithmetic(p: nat, ms: int, low: int)
    requires p < 0x400 && 0 <= low < 0x1_0000
    ensures var msb := ms % 0x1_0000_0000_0000 * 0x1_0000 + low;
            (p * 0x40_0000_0000_0000 + msb % 0x40_0000_0000_0000) / 0x1_0000 == p * 0x40_0000_0000 + ms % 0x40_0000_0000
  {
    var w := ms % 0x1_0000_0000_0000;
    var q, r := w / 0x40_0000_0000, w % 0x40_0000_0000;
    WindowOf(ms);
    DivModUnique(w * 0x1_0000 + low, 0x40_0000_0000_0000, q, r * 0x1_0000 + low);
    DivModUnique(p * 0x40_0000_0000_0000 + (r * 0x1_0000 + low), 0x1_0000, p * 0x40_0000_0000 + r, low);
  }

  lemma WindowOf(ms: int)
    ensures ms % 0x1_0000_0000_0000 % 0x40_0000_0000 == ms % 0x40_0000_0000
  {
    var q, w := ms / 0x1_0000_0000_0000, ms % 0x1_0000_0000_0000;
    DivModUnique(ms, 0x40_0000_0000, q * 0x400 + w / 0x40_0000_0000, w % 0x40_0000_0000);
  }

  /** The prefix of a chronological key reads back, and its version and variant stand. */
  lemma ChronoKeyReadsBack(prefix: int, ms: int, hasPrefix: bool, fill: seq<Byte>)
    requires |fill| == UUID_LEN
    ensures var key := Chrono(prefix, ms, hasPrefix, fill);
            && (hasPrefix ==> ExtractPrefix(First8(key)) == prefix % 0x400)
            && key[7] / 16 == 8 && key[8] / 64 == 2
            && key[6] == fill[6] && key[7] % 16 == fill[7] % 16 && key[8] % 64 == fill[8] % 64 && key[9..] == fill[9..]
  {
    hide Digits, ReplacePrefix, ExtractPrefix, First8, Stamped, WithFirst8;
    var pre := Digits(ms, 6) + fill[6..];
    var base := Stamped(pre);
    var key := Chrono(prefix, ms, hasPrefix, fill);
    if hasPrefix {
      Below(base);
      Below(key);
      var msb := First8(base);
      ReplacePrefixOnly(msb, prefix);
      First8Written(ReplacePrefix(msb, prefix), base);
      SplitAgain(prefix % 0x400, msb);
      ExtractIsTop(First8(key));
      LowThree(key, base);
    }
    StampedRest(key, pre);
    assert key[6] == key[5..7][1] && pre[6] == pre[5..7][1] == fill[6];
    assert pre[7] == fill[7] && pre[8] == fill[8] && pre[9..] == fill[9..];
  }

  lemma SplitAgain(p: nat, msb: nat)
    ensures var v := p * 0x40_0000_0000_0000 + msb % 0x40_0000_0000_0000;
            Top(v) == p && v % 0x100_0000 == msb % 0x100_0000
  {
    var q, m := msb / 0x40_0000_0000_0000, msb % 0x40_0000_0000_0000;
    var a, l := m / 0x100_0000, m % 0x100_0000;
    DivModUnique(p * 0x40_0000_0000_0000 + m, 0x40_0000_0000_0000, p, m);
    DivModUnique(p * 0x40_0000_0000_0000 + m, 0x100_0000, p * 0x4000_0000 + a, l);
    DivModUnique(msb, 0x100_0000, q * 0x4000_0000 + a, l);
  }

  /** Without a prefix the keys are in the order of their milliseconds, below 2^48; with one
      prefix, in the order of the milliseconds within a window of 2^38. */
  lemma ChronoKeysInOrder(prefix: int, ms: int, hasPrefix: bool, fill: seq<Byte>, ms': int, fill': seq<Byte>)
    requires |fill| == |fill'| == UUID_LEN
    ensures var window := if hasPrefix then 0x40_0000_0000 else 0x1_0000_0000_0000;
            var r := Compare(Chrono(prefix, ms, hasPrefix, fill), Chrono(prefix, ms', hasPrefix, fill'));
            && (ms % window != ms' % window ==> r == Sign(ms % window - ms' % window))
            && (0 <= ms < ms' < window ==> r == -1)
  {
    hide Chrono, First8, Compare;
    ChronoFields(prefix, ms, hasPrefix, fill);
    ChronoFields(prefix, ms', hasPrefix, fill');
    First8Decides(Chrono(prefix, ms, hasPrefix, fill), Chrono(prefix, ms', hasPrefix, fill'));
  }
}
