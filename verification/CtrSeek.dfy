/** Reading encrypted data from an offset: the counter arithmetic of lib/kms/common.js against the
    counter mode of section 6.5 of NIST SP 800-38A, with the standard incrementing function of its
    appendix B.1 on whole blocks. The block cipher itself stays an unknown function. */
module CtrSeek {
  import opened Wrappers

  /** The value of one byte of an initialisation vector. Data bytes are bit patterns, `bv8`. */
  type byte = x: int | 0 <= x < 256

  const BLOCK_SIZE := 16

  type Block = b: seq<byte> | |b| == BLOCK_SIZE witness seq(BLOCK_SIZE, _ => 0)

  /** Byte j of the output block for an input block, under one derived key. */
  type BlockFunction = (seq<byte>, nat) -> bv8

  // ----- byte strings as big-endian numbers

  function Pow(n: nat): (r: nat)
    ensures r > 0
  {
    if n == 0 then 1 else 256 * Pow(n - 1)
  }

  function Value(b: seq<byte>): nat {
    if b == [] then 0 else Value(b[..|b| - 1]) * 256 + b[|b| - 1]
  }

  function ToBytes(v: nat, n: nat): (b: seq<byte>)
    ensures |b| == n
  {
    if n == 0 then [] else ToBytes(v / 256, n - 1) + [v % 256]
  }

  lemma {:induction false} ValueIsBelowPow(b: seq<byte>)
    ensures Value(b) < Pow(|b|)
  {
    if b != [] {
      ValueIsBelowPow(b[..|b| - 1]);
    }
  }

  lemma {:induction false} PowGrows(n: nat)
    requires n > 0
    ensures Pow(n) >= 256
  {
    if n > 1 {
      PowGrows(n - 1);
    }
  }

  lemma {:induction false} ToBytesInverts(b: seq<byte>)
    ensures ToBytes(Value(b), |b|) == b
  {
    if b != [] {
      var init, last := b[..|b| - 1], b[|b| - 1];
      assert Value(b) / 256 == Value(init) && Value(b) % 256 == last;
      ToBytesInverts(init);
      assert init + [last] == b;
    }
  }

  lemma {:induction false} ValueInverts(v: nat, n: nat)
    requires v < Pow(n)
    ensures Value(ToBytes(v, n)) == v
  {
    if n > 0 {
      assert v / 256 < Pow(n - 1);
      ValueInverts(v / 256, n - 1);
      var b := ToBytes(v, n);
      assert b[..|b| - 1] == ToBytes(v / 256, n - 1);
    }
  }

  lemma {:induction false} ValueAfterUpdate(b: seq<byte>, i: nat, x: byte)
    requires i < |b|
    ensures Value(b[i := x]) == Value(b) + (x - b[i]) * Pow(|b| - 1 - i)
  {
    var n, b' := |b|, b[i := x];
    if i == n - 1 {
      assert b'[..n - 1] == b[..n - 1];
      assert Pow(0) == 1;
    } else {
      var init := b[..n - 1];
      ValueAfterUpdate(init, i, x);
      assert b'[..n - 1] == init[i := x];
      TimesPow(x - b[i], n - 1 - i);
    }
  }

  lemma TimesPow(d: int, k: nat)
    requires k > 0
    ensures d * Pow(k) == d * Pow(k - 1) * 256
  {
  }

  // ----- _incrementIV: an addition in place, with end-around carry

  /** The number that the addition leaves behind in n bytes, where `base` is 256 to the power n: a
      carry out of the first byte comes back in at the last one. */
  function EndAround(sum: nat, base: nat): (r: nat)
    requires base > 1
    ensures r < base && (r == 0 <==> sum == 0)
  {
    if sum < base then sum else EndAround(sum - base + 1, base)
  }

  /** The counter block for `blocks` blocks further on, as the code computes it. */
  function SeekBlock(iv: seq<byte>, blocks: nat): (r: seq<byte>)
    requires iv != []
    ensures |r| == |iv|
  {
    PowGrows(|iv|);
    ToBytes(EndAround(Value(iv) + blocks, Pow(|iv|)), |iv|)
  }

  function Count255(b: seq<byte>): nat {
    if b == [] then 0 else Count255(b[..|b| - 1]) + if b[|b| - 1] == 255 then 1 else 0
  }

  lemma {:induction false} Count255Drops(b: seq<byte>, i: nat, x: byte)
    requires i < |b| && b[i] == 255 && x != 255
    ensures Count255(b[i := x]) < Count255(b)
  {
    var n, b' := |b|, b[i := x];
    if i == n - 1 {
      assert b'[..n - 1] == b[..n - 1];
    } else {
      Count255Drops(b[..n - 1], i, x);
      assert b'[..n - 1] == b[..n - 1][i := x];
    }
  }

  /** One byte of the addition keeps the sum, when the carry counts for what its position is worth. */
  lemma ByteKeepsSum(before: int, x: int, carry: int, weight: int, after: int)
    requires after == before + ((carry + x) % 256 - x) * weight
    ensures after + (carry + x) / 256 * (256 * weight) == before + carry * weight
  {
    var m, c := (carry + x) % 256, (carry + x) / 256;
    assert m - x == carry - 256 * c;
    assert (m - x) * weight == carry * weight - 256 * c * weight;
    assert c * (256 * weight) == 256 * c * weight;
  }

  /** What is still to be added at position i, together with the laps that the carry has made
      around the buffer, is the sum. */
  ghost predicate Adding(b: seq<byte>, i: nat, ctr: nat, laps: nat, sum: nat)
    requires i < |b|
  {
    && Value(b) + ctr * Pow(|b| - 1 - i) + laps * (Pow(|b|) - 1) == sum
    && (sum > 0 ==> Value(b) + ctr > 0)
  }

  lemma CarryIsWorth(n: nat, i: nat, ctr: nat)
    requires i < n
    ensures i > 0 ==> ctr * (256 * Pow(n - 1 - i)) == ctr * Pow(n - 1 - (i - 1))
    ensures i == 0 ==> ctr * (256 * Pow(n - 1 - i)) == ctr + ctr * (Pow(n) - 1)
  {
    if i == 0 {
      assert ctr * Pow(n) == ctr + ctr * (Pow(n) - 1);
    }
  }

  lemma NonZeroByte(b: seq<byte>, i: nat)
    requires i < |b| && b[i] > 0
    ensures Value(b) > 0
  {
    ValueAfterUpdate(b, i, 0);
    assert b[i] * Pow(|b| - 1 - i) > 0;
    assert Value(b[i := 0]) >= 0;
  }

  lemma SumStaysPositive(b: seq<byte>, i: nat, ctr: nat)
    requires i < |b| && ctr > 0
    ensures Value(b[i := (ctr + b[i]) % 256]) + (ctr + b[i]) / 256 > 0
  {
    if (ctr + b[i]) / 256 == 0 {
      NonZeroByte(b[i := ctr + b[i]], i);
    }
  }

  /** One turn of the loop; the new position is the byte before, or the last byte again. */
  lemma AdditionStep(b: seq<byte>, i: nat, ctr: nat, laps: nat, sum: nat)
    requires i < |b| && ctr > 0 && Adding(b, i, ctr, laps, sum)
    ensures var b', c := b[i := (ctr + b[i]) % 256], (ctr + b[i]) / 256;
            if i > 0 then Adding(b', i - 1, c, laps, sum) else Adding(b', |b| - 1, c, laps + c, sum)
  {
    var mod, c := (ctr + b[i]) % 256, (ctr + b[i]) / 256;
    var b', weight := b[i := mod], Pow(|b| - 1 - i);
    SumStaysPositive(b, i, ctr);
    ValueAfterUpdate(b, i, mod);
    ByteKeepsSum(Value(b), b[i], ctr, weight, Value(b'));
    CarryIsWorth(|b|, i, c);
    if i == 0 {
      LapIsWorth(|b|, c, laps);
    }
  }

  lemma LapIsWorth(n: nat, c: nat, laps: nat)
    ensures c * Pow(n - n) == c && (laps + c) * (Pow(n) - 1) == laps * (Pow(n) - 1) + c * (Pow(n) - 1)
  {
  }

  /** The carry shrinks, or stays 1 and turns one more 255 into a 0. */
  lemma AdditionProgresses(b: seq<byte>, i: nat, ctr: nat)
    requires i < |b| && ctr > 0
    ensures (ctr + b[i]) / 256 < ctr
            || ((ctr + b[i]) / 256 == ctr && Count255(b[i := (ctr + b[i]) % 256]) < Count255(b))
  {
    if (ctr + b[i]) / 256 >= ctr {
      assert ctr == 1 && b[i] == 255;
      Count255Drops(b, i, 0);
    }
  }

  lemma OneLapLess(laps: nat, m: nat)
    requires laps > 0
    ensures laps * m == (laps - 1) * m + m && (laps - 1) * m >= 0
  {
  }

  lemma {:induction false} EndAroundIs(sum: nat, m: nat, r: nat, laps: nat)
    requires 0 < m && r <= m && sum == r + laps * m && (sum > 0 ==> r > 0)
    ensures EndAround(sum, m + 1) == r
    decreases laps
  {
    if laps > 0 {
      OneLapLess(laps, m);
      EndAroundIs(sum - m, m, r, laps - 1);
    }
  }

  lemma LapsAreNotNegative(laps: nat, m: nat)
    ensures laps * m >= 0
  {
  }

  lemma AdditionEnds(b: seq<byte>, i: nat, laps: nat, iv: seq<byte>, counter: nat)
    requires |b| == |iv| && i < |b| && Adding(b, i, 0, laps, Value(iv) + counter)
    ensures b == SeekBlock(iv, counter) && IsSum(b, iv, counter, laps)
  {
    PowGrows(|b|);
    LapsAreNotNegative(laps, Pow(|b|) - 1);
    ValueIsBelowPow(b);
    EndAroundIs(Value(iv) + counter, Pow(|b|) - 1, Value(b), laps);
    ToBytesInverts(b);
  }

  /** In plain numbers: the sum less a multiple of the largest value that fits, and 0 only if it is 0. */
  ghost predicate IsSum(b: seq<byte>, iv: seq<byte>, counter: nat, laps: nat) {
    && Value(b) + laps * (Pow(|iv|) - 1) == Value(iv) + counter
    && (Value(b) == 0 <==> Value(iv) + counter == 0)
  }

  /** The IV buffer is changed in place. It must not be empty: with no byte to take a carry, the
      loop of the original would not end. */
  method IncrementIV(newIV: array<byte>, counter: nat)
    requires newIV.Length > 0
    modifies newIV
    ensures newIV[..] == SeekBlock(old(newIV[..]), counter)
    ensures exists laps: nat :: IsSum(newIV[..], old(newIV[..]), counter, laps)
  {
    var len := newIV.Length;
    var i := len - 1;
    var ctr: nat := counter;
    ghost var sum, laps := Value(newIV[..]) + counter, 0;
    while ctr != 0
      invariant 0 <= i < len && laps >= 0
      invariant Adding(newIV[..], i, ctr, laps, sum)
      decreases ctr, Count255(newIV[..])
    {
      AdditionStep(newIV[..], i, ctr, laps, sum);
      AdditionProgresses(newIV[..], i, ctr);
      var mod: byte := (ctr + newIV[i]) % 256;
      ctr := (ctr + newIV[i]) / 256;
      ghost var before: seq<byte> := newIV[..];
      newIV[i] := mod;
      assert newIV[..] == before[i := mod];
      i := i - 1;
      if i < 0 {
        i := len - 1;
        laps := laps + ctr;
      }
    }
    AdditionEnds(newIV[..], i, laps, old(newIV[..]), counter);
    assert IsSum(newIV[..], old(newIV[..]), counter, laps);
  }

  // ----- the standard incrementing function, and the counter blocks of a message

  function Inc(b: seq<byte>): (r: seq<byte>)
    ensures |r| == |b|
  {
    if b == [] then []
    else
      var init, last := b[..|b| - 1], b[|b| - 1];
      if last == 255 then Inc(init) + [0] else init + [last + 1]
  }

  /** The k-th counter block after b. */
  function IncN(b: seq<byte>, k: nat): (r: seq<byte>)
    ensures |r| == |b|
  {
    if k == 0 then b else Inc(IncN(b, k - 1))
  }

  lemma {:induction false} IncValue(b: seq<byte>)
    ensures Value(Inc(b)) == if Value(b) + 1 == Pow(|b|) then 0 else Value(b) + 1
  {
    if b != [] {
      var init, last := b[..|b| - 1], b[|b| - 1];
      assert Inc(b)[..|b| - 1] == if last == 255 then Inc(init) else init;
      ValueIsBelowPow(init);
      if last == 255 {
        IncValue(init);
      }
    }
  }

  /** Addition modulo `base`. */
  function WrapAround(sum: nat, base: nat): (r: nat)
    requires base > 0
    ensures r < base
  {
    if sum < base then sum else WrapAround(sum - base, base)
  }

  lemma {:induction false} WrapAroundIs(sum: nat, base: nat, r: nat, laps: nat)
    requires r < base && sum == r + laps * base
    ensures WrapAround(sum, base) == r
    decreases laps
  {
    if laps > 0 {
      OneLapLess(laps, base);
      WrapAroundIs(sum - base, base, r, laps - 1);
    }
  }

  lemma WrapAroundIsRemainder(sum: nat, base: nat)
    requires base > 0
    ensures WrapAround(sum, base) == sum % base
  {
    WrapAroundIs(sum, base, sum % base, sum / base);
  }

  lemma {:induction false} WrapAroundSteps(sum: nat, base: nat)
    requires base > 0
    ensures WrapAround(sum + 1, base) == if WrapAround(sum, base) + 1 == base then 0 else WrapAround(sum, base) + 1
    decreases sum
  {
    if sum >= base {
      WrapAroundSteps(sum - base, base);
    }
  }

  lemma IncNValueStep(b: seq<byte>, sum: nat, base: nat)
    requires base == Pow(|b|) && Value(b) == WrapAround(sum, base)
    ensures Value(Inc(b)) == WrapAround(sum + 1, base)
  {
    IncValue(b);
    WrapAroundSteps(sum, base);
  }

  lemma {:induction false} IncNValue(b: seq<byte>, k: nat)
    ensures Value(IncN(b, k)) == WrapAround(Value(b) + k, Pow(|b|))
  {
    if k == 0 {
      ValueIsBelowPow(b);
    } else {
      IncNValue(b, k - 1);
      IncNValueStep(IncN(b, k - 1), Value(b) + (k - 1), Pow(|b|));
    }
  }

  /** The counter blocks are those of the standard incrementing function: the value of the k-th one
      is the value of the first plus k, modulo 256 to the power of the length. */
  lemma IncNIsStandard(b: seq<byte>, k: nat)
    ensures Value(IncN(b, k)) == (Value(b) + k) % Pow(|b|)
  {
    IncNValue(b, k);
    WrapAroundIsRemainder(Value(b) + k, Pow(|b|));
  }

  lemma IncNNext(b: seq<byte>, k: nat)
    ensures IncN(b, k + 1) == Inc(IncN(b, k))
  {
  }

  lemma {:induction false} IncNAdds(b: seq<byte>, j: nat, k: nat)
    ensures IncN(IncN(b, j), k) == IncN(b, j + k)
  {
    if k > 0 {
      IncNAdds(b, j, k - 1);
      SameInc(IncN(IncN(b, j), k - 1), IncN(b, j + (k - 1)));
      IncNNext(IncN(b, j), k - 1);
      IncNNext(b, j + (k - 1));
    }
  }

  lemma SameInc(a: seq<byte>, b: seq<byte>)
    requires a == b
    ensures Inc(a) == Inc(b)
  {
  }

  lemma SameValue(a: seq<byte>, b: seq<byte>)
    requires |a| == |b| && Value(a) == Value(b)
    ensures a == b
  {
    ToBytesInverts(a);
    ToBytesInverts(b);
  }

  lemma SumByParts(p: nat, t: nat, r: nat, m: nat)
    ensures (p * m + t) * (m + 1) + r == (p * m + t + p) * m + t + r
  {
    var q := p * m + t;
    assert q * (m + 1) == q * m + q;
    assert (q + p) * m == q * m + p * m;
  }

  /** When the end-around carry agrees with plain wrap-around, for any sum: the sum is 0, or it is
      no multiple of the base and has wrapped around a multiple of base - 1 times. */
  lemma EndAroundAgrees(p: nat, t: nat, r: nat, m: nat, sum: nat)
    requires 0 < m && t < m && r <= m && sum == (p * m + t) * (m + 1) + r
    ensures EndAround(sum, m + 1) == WrapAround(sum, m + 1) <==> sum == 0 || (r != 0 && t == 0)
  {
    var laps := p * m + t + p;
    WrapAroundIs(sum, m + 1, r, p * m + t);
    SumByParts(p, t, r, m);
    if 0 < t + r <= m && sum > 0 {
      EndAroundIs(sum, m, t + r, laps);
    } else if t + r > m {
      OneLapLess(laps + 1, m);
      EndAroundIs(sum, m, t + r - m, laps + 1);
    }
  }

  /** When the code's counter block is the one that counter mode uses for this block. */
  predicate SeekIsRight(iv: seq<byte>, blocks: nat)
    requires iv != []
  {
    SeekBlock(iv, blocks) == IncN(iv, blocks)
  }

  lemma SeekValue(iv: seq<byte>, blocks: nat)
    requires iv != []
    ensures Pow(|iv|) >= 256 && Value(SeekBlock(iv, blocks)) == EndAround(Value(iv) + blocks, Pow(|iv|))
  {
    PowGrows(|iv|);
    ValueInverts(EndAround(Value(iv) + blocks, Pow(|iv|)), |iv|);
  }

  lemma SeekIsRightIff(iv: seq<byte>, blocks: nat)
    requires iv != []
    ensures SeekIsRight(iv, blocks) <==> Value(SeekBlock(iv, blocks)) == Value(IncN(iv, blocks))
  {
    var a, b := SeekBlock(iv, blocks), IncN(iv, blocks);
    IncNValue(iv, blocks);
    if Value(a) == Value(b) {
      SameValue(a, b);
    }
  }

  lemma AgreesBelow(sum: nat, base: nat)
    requires base > 2 && sum < 2 * base - 1
    ensures EndAround(sum, base) == WrapAround(sum, base) <==> sum < base
  {
    if sum >= base {
      assert EndAround(sum, base) == sum - base + 1;
    }
  }

  /** The values of the two counter blocks. */
  lemma SeekValues(iv: seq<byte>, blocks: nat, sum: nat, base: nat)
    requires iv != [] && sum == Value(iv) + blocks && base == Pow(|iv|) && base > 2
    ensures Value(SeekBlock(iv, blocks)) == EndAround(sum, base) && Value(IncN(iv, blocks)) == WrapAround(sum, base)
  {
    SeekValue(iv, blocks);
    IncNValue(iv, blocks);
  }

  lemma SeekIsRightFor(iv: seq<byte>, blocks: nat, sum: nat, base: nat)
    requires iv != [] && sum == Value(iv) + blocks && base == Pow(|iv|) && base > 2 && sum < 2 * base - 1
    ensures SeekIsRight(iv, blocks) <==> sum < base
  {
    SeekIsRightIff(iv, blocks);
    SeekValues(iv, blocks, sum, base);
    AgreesBelow(sum, base);
  }

  /** For a counter that fits the block, the code's counter block is right exactly when adding the
      counter to the IV does not overflow. */
  lemma SeekIsRightExactly(iv: seq<byte>, blocks: nat)
    requires iv != [] && blocks < Pow(|iv|)
    ensures SeekIsRight(iv, blocks) <==> Value(iv) + blocks < Pow(|iv|)
  {
    var sum, base := Value(iv) + blocks, Pow(|iv|);
    PowGrows(|iv|);
    ValueIsBelowPow(iv);
    SeekIsRightFor(iv, blocks, sum, base);
  }

  // ----- counter mode on a byte stream

  function Xor(x: bv8, y: bv8): bv8 {
    x ^ y
  }

  /** Byte p of the key stream whose first counter block is t. */
  function Keystream(encrypt: BlockFunction, t: seq<byte>, p: nat): bv8 {
    encrypt(IncN(t, p / BLOCK_SIZE), p % BLOCK_SIZE)
  }

  /** Counter mode from stream position `from` on; encryption and decryption are the same. */
  function Crypt(encrypt: BlockFunction, t: seq<byte>, from: nat, data: seq<bv8>): (r: seq<bv8>)
    ensures |r| == |data|
  {
    if data == [] then []
    else
      var n := |data| - 1;
      Crypt(encrypt, t, from, data[..n]) + [Xor(data[n], Keystream(encrypt, t, from + n))]
  }

  lemma {:induction false} CryptAt(encrypt: BlockFunction, t: seq<byte>, from: nat, data: seq<bv8>, i: nat)
    requires i < |data|
    ensures Crypt(encrypt, t, from, data)[i] == Xor(data[i], Keystream(encrypt, t, from + i))
  {
    if i < |data| - 1 {
      CryptAt(encrypt, t, from, data[..|data| - 1], i);
    }
  }

  lemma BitsCancel(p: bv8, x: bv8, y: bv8)
    ensures p ^ x ^ y == p <==> x == y
  {
  }

  lemma XorCancels(p: bv8, x: bv8, y: bv8)
    ensures Xor(Xor(p, x), y) == p <==> x == y
  {
    BitsCancel(p, x, y);
    assert Xor(Xor(p, x), y) == p ^ x ^ y;
  }

  /** Data that was encrypted from position 0 of one key stream, read from an offset, and decrypted
      from some position of another one: byte i is the plain byte with both key stream bytes on it. */
  lemma CryptedTwice(encrypt: BlockFunction, t: seq<byte>, plain: seq<bv8>, offset: nat, t': seq<byte>, from: nat, i: nat)
    requires offset + i < |plain|
    ensures Crypt(encrypt, t', from, Crypt(encrypt, t, 0, plain)[offset..])[i]
            == Xor(Xor(plain[offset + i], Keystream(encrypt, t, offset + i)), Keystream(encrypt, t', from + i))
  {
    var cipherText := Crypt(encrypt, t, 0, plain);
    CryptAt(encrypt, t, 0, plain, offset + i);
    CryptAt(encrypt, t', from, cipherText[offset..], i);
  }

  predicate SameByte(encrypt: BlockFunction, t: seq<byte>, offset: nat, t': seq<byte>, from: nat, i: nat) {
    Keystream(encrypt, t, offset + i) == Keystream(encrypt, t', from + i)
  }

  /** Both key streams give the same bytes, from these positions on and for this many bytes. */
  predicate SameKeystream(encrypt: BlockFunction, t: seq<byte>, offset: nat, t': seq<byte>, from: nat, n: nat) {
    forall i: nat :: i < n ==> SameByte(encrypt, t, offset, t', from, i)
  }

  lemma ByteComesBack(encrypt: BlockFunction, t: seq<byte>, plain: seq<bv8>, offset: nat, t': seq<byte>, from: nat, i: nat)
    requires offset + i < |plain|
    ensures Crypt(encrypt, t', from, Crypt(encrypt, t, 0, plain)[offset..])[i] == plain[offset..][i]
            <==> SameByte(encrypt, t, offset, t', from, i)
  {
    CryptedTwice(encrypt, t, plain, offset, t', from, i);
    XorCancels(plain[offset + i], Keystream(encrypt, t, offset + i), Keystream(encrypt, t', from + i));
  }

  /** The plain text comes back exactly when both key streams agree on it. */
  lemma PlainComesBack(encrypt: BlockFunction, t: seq<byte>, plain: seq<bv8>, offset: nat, t': seq<byte>, from: nat)
    requires offset <= |plain|
    ensures Crypt(encrypt, t', from, Crypt(encrypt, t, 0, plain)[offset..]) == plain[offset..]
            <==> SameKeystream(encrypt, t, offset, t', from, |plain| - offset)
  {
    var got, want := Crypt(encrypt, t', from, Crypt(encrypt, t, 0, plain)[offset..]), plain[offset..];
    forall i: nat | i < |want|
      ensures got[i] == want[i] <==> SameByte(encrypt, t, offset, t', from, i)
    {
      ByteComesBack(encrypt, t, plain, offset, t', from, i);
    }
    if got != want {
      var i :| 0 <= i < |want| && got[i] != want[i];
      assert !SameByte(encrypt, t, offset, t', from, i);
    }
  }

  /** Where byte j of block m, counted from the block of `offset`, lies in both key streams. */
  lemma KeystreamsAt(encrypt: BlockFunction, iv: seq<byte>, t: seq<byte>, offset: nat, i: nat, k: nat, m: nat, j: nat)
    requires k == offset / BLOCK_SIZE && offset % BLOCK_SIZE + i == m * BLOCK_SIZE + j && j < BLOCK_SIZE
    ensures Keystream(encrypt, iv, offset + i) == encrypt(IncN(IncN(iv, k), m), j)
    ensures Keystream(encrypt, t, offset % BLOCK_SIZE + i) == encrypt(IncN(t, m), j)
  {
    SamePosition(offset, i, k, m, j);
    KeystreamAt(encrypt, iv, offset + i, k + m, j);
    KeystreamAt(encrypt, t, offset % BLOCK_SIZE + i, m, j);
    IncNAdds(iv, k, m);
  }

  lemma SamePosition(offset: nat, i: nat, k: nat, m: nat, j: nat)
    requires k == offset / BLOCK_SIZE && offset % BLOCK_SIZE + i == m * BLOCK_SIZE + j && j < BLOCK_SIZE
    ensures (offset + i) / BLOCK_SIZE == k + m && (offset + i) % BLOCK_SIZE == j
    ensures (offset % BLOCK_SIZE + i) / BLOCK_SIZE == m && (offset % BLOCK_SIZE + i) % BLOCK_SIZE == j
  {
  }

  lemma KeystreamAt(encrypt: BlockFunction, t: seq<byte>, p: nat, k: nat, j: nat)
    requires p / BLOCK_SIZE == k && p % BLOCK_SIZE == j
    ensures Keystream(encrypt, t, p) == encrypt(IncN(t, k), j)
  {
  }

  lemma RightBlockSameKeystream(encrypt: BlockFunction, iv: seq<byte>, offset: nat, n: nat)
    ensures SameKeystream(encrypt, iv, offset, IncN(iv, offset / BLOCK_SIZE), offset % BLOCK_SIZE, n)
  {
    var k, toSkip := offset / BLOCK_SIZE, offset % BLOCK_SIZE;
    forall i: nat | i < n
      ensures SameByte(encrypt, iv, offset, IncN(iv, k), toSkip, i)
    {
      KeystreamsAt(encrypt, iv, IncN(iv, k), offset, i, k, (toSkip + i) / BLOCK_SIZE, (toSkip + i) % BLOCK_SIZE);
    }
  }

  predicate Differ(encrypt: BlockFunction, a: Block, b: Block) {
    exists j :: 0 <= j < BLOCK_SIZE && encrypt(a, j) != encrypt(b, j)
  }

  /** A block cipher maps different blocks to different blocks. */
  ghost predicate IsCipher(encrypt: BlockFunction) {
    forall a: Block, b: Block :: a != b ==> Differ(encrypt, a, b)
  }

  lemma {:induction false} IncIsInjective(a: seq<byte>, b: seq<byte>)
    requires |a| == |b| && Inc(a) == Inc(b)
    ensures a == b
  {
    IncValue(a);
    IncValue(b);
    ValueIsBelowPow(a);
    ValueIsBelowPow(b);
    SameValue(a, b);
  }

  lemma {:induction false} IncNIsInjective(a: seq<byte>, b: seq<byte>, m: nat)
    requires |a| == |b| && IncN(a, m) == IncN(b, m)
    ensures a == b
  {
    if m > 0 {
      IncIsInjective(IncN(a, m - 1), IncN(b, m - 1));
      IncNIsInjective(a, b, m - 1);
    }
  }

  lemma DifferentBlocksDiffer(encrypt: BlockFunction, a: Block, b: Block, m: nat) returns (j: nat)
    requires IsCipher(encrypt) && a != b
    ensures j < BLOCK_SIZE && encrypt(IncN(a, m), j) != encrypt(IncN(b, m), j)
  {
    if IncN(a, m) == IncN(b, m) {
      IncNIsInjective(a, b, m);
    }
    assert Differ(encrypt, IncN(a, m), IncN(b, m));
    j :| 0 <= j < BLOCK_SIZE && encrypt(IncN(a, m), j) != encrypt(IncN(b, m), j);
  }

  /** The bytes up to the next whole block. */
  function ToNextBlock(offset: nat): nat {
    (BLOCK_SIZE - offset % BLOCK_SIZE) % BLOCK_SIZE
  }

  /** A suffix that holds a whole block is enough to tell the key streams apart. */
  lemma WrongBlockOtherKeystream(encrypt: BlockFunction, iv: Block, t: Block, offset: nat, n: nat)
    requires IsCipher(encrypt) && n >= ToNextBlock(offset) + BLOCK_SIZE && t != IncN(iv, offset / BLOCK_SIZE)
    ensures !SameKeystream(encrypt, iv, offset, t, offset % BLOCK_SIZE, n)
  {
    var m := if offset % BLOCK_SIZE == 0 then 0 else 1;
    var j := DifferentBlocksDiffer(encrypt, IncN(iv, offset / BLOCK_SIZE), t, m);
    var i := ByteOfBlock(offset, m, j);
    OtherByte(encrypt, iv, t, offset, i, m, j);
  }

  /** Byte j of the first whole block after the offset. */
  lemma ByteOfBlock(offset: nat, m: nat, j: nat) returns (i: nat)
    requires m == (if offset % BLOCK_SIZE == 0 then 0 else 1) && j < BLOCK_SIZE
    ensures offset % BLOCK_SIZE + i == m * BLOCK_SIZE + j && i < ToNextBlock(offset) + BLOCK_SIZE
  {
    i := m * BLOCK_SIZE + j - offset % BLOCK_SIZE;
  }

  lemma OtherByte(encrypt: BlockFunction, iv: Block, t: Block, offset: nat, i: nat, m: nat, j: nat)
    requires offset % BLOCK_SIZE + i == m * BLOCK_SIZE + j && j < BLOCK_SIZE
    requires encrypt(IncN(IncN(iv, offset / BLOCK_SIZE), m), j) != encrypt(IncN(t, m), j)
    ensures !SameByte(encrypt, iv, offset, t, offset % BLOCK_SIZE, i)
  {
    KeystreamsAt(encrypt, iv, t, offset, i, offset / BLOCK_SIZE, m, j);
  }

  /** Deciphering from an offset: skip whole blocks by the counter, and then single bytes. */
  function DecipheredFrom(encrypt: BlockFunction, iv: Block, offset: nat, cipherText: seq<bv8>): seq<bv8> {
    Crypt(encrypt, SeekBlock(iv, offset / BLOCK_SIZE), offset % BLOCK_SIZE, cipherText)
  }

  /** The seek round trip, for every block cipher, IV, plain text and offset: when no counter up to
      the first block read overflows, the deciphered suffix is the suffix of the plain text. */
  lemma SeekRoundTrip(encrypt: BlockFunction, iv: Block, offset: nat, plain: seq<bv8>)
    requires offset <= |plain| && Value(iv) + offset / BLOCK_SIZE < Pow(BLOCK_SIZE)
    ensures DecipheredFrom(encrypt, iv, offset, Crypt(encrypt, iv, 0, plain)[offset..]) == plain[offset..]
  {
    var k := offset / BLOCK_SIZE;
    SeekIsRightExactly(iv, k);
    RightBlockSameKeystream(encrypt, iv, offset, |plain| - offset);
    PlainComesBack(encrypt, iv, plain, offset, IncN(iv, k), offset % BLOCK_SIZE);
  }

  /** And only then, once the suffix holds a whole block: with an overflow, no
      block cipher and no plain text come back. */
  lemma SeekRoundTripExactly(encrypt: BlockFunction, iv: Block, offset: nat, plain: seq<bv8>)
    requires IsCipher(encrypt) && offset + ToNextBlock(offset) + BLOCK_SIZE <= |plain| && offset / BLOCK_SIZE < Pow(BLOCK_SIZE)
    ensures DecipheredFrom(encrypt, iv, offset, Crypt(encrypt, iv, 0, plain)[offset..]) == plain[offset..]
            <==> Value(iv) + offset / BLOCK_SIZE < Pow(BLOCK_SIZE)
  {
    var k := offset / BLOCK_SIZE;
    if Value(iv) + k < Pow(BLOCK_SIZE) {
      SeekRoundTrip(encrypt, iv, offset, plain);
    } else {
      SeekIsRightExactly(iv, k);
      WrongBlockOtherKeystream(encrypt, iv, SeekBlock(iv, k), offset, |plain| - offset);
      PlainComesBack(encrypt, iv, plain, offset, SeekBlock(iv, k), offset % BLOCK_SIZE);
    }
  }

  // ----- the cipher objects

  /** What key derivation makes of a data key. */
  datatype Derived = Derived(encrypt: BlockFunction, iv: Block)

  predicate StandsAt(counter: seq<byte>, used: nat, start: seq<byte>, position: nat) {
    counter == IncN(start, position / BLOCK_SIZE) && used == position % BLOCK_SIZE
  }

  /** Counter mode, byte for byte: each one is combined with its byte of the block that the cipher makes
      of the counter block, of 16 bytes, which it falls into. */
  ghost predicate IsCounterMode(encrypt: BlockFunction, t: seq<byte>, from: nat, data: seq<bv8>, output: seq<bv8>) {
    && |output| == |data|
    && forall k :: 0 <= k < |data| ==> output[k] == data[k] ^ encrypt(IncN(t, (from + k) / 16), (from + k) % 16)
  }

  /** A cipher or decipher in counter mode, as `crypto.createDecipheriv` makes it. */
  class CtrStream {
    const encrypt: BlockFunction
    var counter: seq<byte>
    var used: nat
    ghost var start: seq<byte>
    ghost var position: nat

    /** The stream has come to `position` in the key stream that begins at block `start`. */
    ghost predicate Valid() reads this {
      StandsAt(counter, used, start, position)
    }

    constructor (encrypt: BlockFunction, iv: seq<byte>)
      ensures Valid() && this.encrypt == encrypt && start == iv && position == 0
    {
      this.encrypt := encrypt;
      counter, used := iv, 0;
      start, position := iv, 0;
    }

    method NextByte(x: bv8) returns (y: bv8)
      requires Valid()
      modifies this
      ensures Valid() && start == old(start) && position == old(position) + 1
      ensures y == x ^ encrypt(IncN(start, old(position) / 16), old(position) % 16)
    {
      NextPosition(position);
      y := Xor(x, encrypt(counter, used));
      used := used + 1;
      if used == BLOCK_SIZE {
        counter, used := Inc(counter), 0;
      }
      position := position + 1;
    }

    /** Each byte with the next byte of the key stream: the bytes of the blocks that the cipher makes of
        the counter blocks, one after the other. */
    method Update(data: seq<bv8>) returns (output: seq<bv8>)
      requires Valid()
      modifies this
      ensures Valid() && start == old(start) && position == old(position) + |data|
      ensures IsCounterMode(encrypt, start, old(position), data, output)
      ensures output == Crypt(encrypt, start, old(position), data)
    {
      ghost var t, from := start, position;
      output := [];
      for i := 0 to |data|
        invariant Valid() && start == t && position == from + i
        invariant IsCounterMode(encrypt, t, from, data[..i], output)
      {
        var y := NextByte(data[i]);
        OneMoreByte(encrypt, t, from, data, i, output, y);
        output := output + [y];
      }
      assert data[..|data|] == data;
      CryptIs(encrypt, t, from, data, output);
    }
  }

  lemma {:induction false} OneMoreByte(encrypt: BlockFunction, t: seq<byte>, from: nat, data: seq<bv8>, i: nat,
                                       output: seq<bv8>, y: bv8)
    requires i < |data| && IsCounterMode(encrypt, t, from, data[..i], output)
    requires y == data[i] ^ encrypt(IncN(t, (from + i) / 16), (from + i) % 16)
    ensures IsCounterMode(encrypt, t, from, data[..i + 1], output + [y])
  {
  }

  lemma {:induction false} CryptIs(encrypt: BlockFunction, t: seq<byte>, from: nat, data: seq<bv8>, output: seq<bv8>)
    requires IsCounterMode(encrypt, t, from, data, output)
    ensures output == Crypt(encrypt, t, from, data)
  {
    forall k: nat | k < |data|
      ensures output[k] == Crypt(encrypt, t, from, data)[k]
    {
      CryptAt(encrypt, t, from, data, k);
    }
  }

  lemma NextPosition(p: nat)
    ensures p % BLOCK_SIZE == BLOCK_SIZE - 1 ==>
              (p + 1) % BLOCK_SIZE == 0 && (p + 1) / BLOCK_SIZE == p / BLOCK_SIZE + 1
    ensures p % BLOCK_SIZE < BLOCK_SIZE - 1 ==>
              (p + 1) % BLOCK_SIZE == p % BLOCK_SIZE + 1 && (p + 1) / BLOCK_SIZE == p / BLOCK_SIZE
  {
  }

  /** Key derivation is an unknown function; `None` when it fails. */
  method DeriveKey(cryptoScheme: int, dataKey: seq<byte>, pbkdf2: seq<byte> -> Option<Derived>)
    returns (r: Result<Derived>)
    ensures r.Ok? <==> cryptoScheme <= 1 && pbkdf2(dataKey).Some?
    ensures r.Ok? ==> Some(r.value) == pbkdf2(dataKey)
    ensures r.Err? ==> r == Err("InternalError")
  {
    if cryptoScheme <= 1 {
      var derived := pbkdf2(dataKey);
      if derived.None? {
        return Err("InternalError");
      }
      return Ok(derived.value);
    }
    return Err("InternalError");
  }

  /** The decipher that a read from `offset` gets: what it outputs is what `DecipheredFrom` says. */
  method CreateDecipher(cryptoScheme: int, dataKey: seq<byte>, offset: nat, pbkdf2: seq<byte> -> Option<Derived>)
    returns (r: Result<CtrStream>)
    ensures cryptoScheme > 1 || pbkdf2(dataKey).None? ==> r == Err("InternalError")
    ensures cryptoScheme <= 1 && pbkdf2(dataKey).Some? ==>
      && r.Ok? && fresh(r.value) && r.value.Valid()
      && r.value.encrypt == pbkdf2(dataKey).value.encrypt
      && r.value.start == SeekBlock(pbkdf2(dataKey).value.iv, offset / BLOCK_SIZE)
      && r.value.position == offset % BLOCK_SIZE
  {
    var derived := DeriveKey(cryptoScheme, dataKey, pbkdf2);
    if derived.Err? {
      return Err(derived.error);
    }
    var derivedIV: seq<byte> := derived.value.iv;
    var blocks, toSkip := offset / BLOCK_SIZE, offset % BLOCK_SIZE;
    var iv := new byte[|derivedIV|](i requires 0 <= i < |derivedIV| => derivedIV[i]);
    assert iv[..] == derivedIV;
    IncrementIV(iv, blocks);
    var cipher := new CtrStream(derived.value.encrypt, iv[..]);
    if toSkip != 0 {
      var _ := cipher.Update(seq(toSkip, _ => 0));
    }
    return Ok(cipher);
  }

  /** The cipher is the decipher: counter mode is its own inverse. */
  method CreateCipher(cryptoScheme: int, dataKey: seq<byte>, offset: nat, pbkdf2: seq<byte> -> Option<Derived>)
    returns (r: Result<CtrStream>)
    ensures cryptoScheme > 1 || pbkdf2(dataKey).None? ==> r == Err("InternalError")
    ensures cryptoScheme <= 1 && pbkdf2(dataKey).Some? ==>
      && r.Ok? && fresh(r.value) && r.value.Valid()
      && r.value.encrypt == pbkdf2(dataKey).value.encrypt
      && r.value.start == SeekBlock(pbkdf2(dataKey).value.iv, offset / BLOCK_SIZE)
      && r.value.position == offset % BLOCK_SIZE
  {
    r := CreateDecipher(cryptoScheme, dataKey, offset, pbkdf2);
  }
}
