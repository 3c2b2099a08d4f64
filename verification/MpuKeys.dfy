/** The keys of the shadow bucket: overview keys, part keys and padded part numbers. */
module MpuKeys {
  const SPLITTER := "..|.."

  // ----- JavaScript's view of numbers and strings

  function Digit(d: nat): char
    requires d < 10
  {
    '0' + d as char
  }

  /** The decimal form of a number. */
  function Decimal(n: nat): string {
    if n < 10 then [Digit(n)] else Decimal(n / 10) + [Digit(n % 10)]
  }

  /** `s.substr(-k)`: the last k characters, or all of them. */
  function Last(s: string, k: nat): string {
    if |s| <= k then s else s[|s| - k..]
  }

  predicate IsDigit(c: char) {
    '0' <= c <= '9'
  }

  predicate AllDigits(s: string) {
    forall i :: 0 <= i < |s| ==> IsDigit(s[i])
  }

  /** `parseInt(s, 10)` of a string of digits. */
  function ParseInt(s: string): nat
    requires AllDigits(s)
  {
    if s == [] then 0 else 10 * ParseInt(s[..|s| - 1]) + (s[|s| - 1] as int - '0' as int)
  }

  /** String order: by the first character that differs; a proper prefix comes first. */
  predicate Below(a: string, b: string) {
    if b == "" then false
    else if a == "" then true
    else a[0] < b[0] || (a[0] == b[0] && Below(a[1..], b[1..]))
  }

  /** It is a strict order of all strings. */
  lemma {:induction false} BelowIsTotal(a: string, b: string)
    ensures a == b ==> !Below(a, b)
    ensures a != b ==> (Below(a, b) <==> !Below(b, a))
    decreases |a|
  {
    if a != "" && b != "" && a[0] == b[0] {
      BelowIsTotal(a[1..], b[1..]);
      assert a == [a[0]] + a[1..] && b == [b[0]] + b[1..];
    }
  }

  predicate OccursAt(s: string, t: string, i: nat) {
    i + |t| <= |s| && s[i..i + |t|] == t
  }

  /** The last place at or before i where t occurs in s, or -1. */
  function LastIndexFrom(s: string, t: string, i: int): (r: int)
    requires i <= |s|
    ensures -1 <= r <= |s|
    decreases i + 1
  {
    if i < 0 then -1 else if OccursAt(s, t, i) then i else LastIndexFrom(s, t, i - 1)
  }

  /** `s.lastIndexOf(t)` */
  function LastIndexOf(s: string, t: string): int {
    LastIndexFrom(s, t, |s|)
  }

  // ----- the keys

  /** Padded so that parts are listed in numerical order. */
  function PaddedPartNumber(n: nat): string {
    Last("000000" + Decimal(n), 5)
  }

  function OverviewKey(objectKey: string, uploadId: string): string {
    "overview" + SPLITTER + objectKey + SPLITTER + uploadId
  }

  function PartKey(uploadId: string, n: nat): string {
    uploadId + SPLITTER + PaddedPartNumber(n)
  }

  /** The form of the keys. A number of up to five digits keeps them all, behind zeros. */
  lemma KeyForms(objectKey: string, uploadId: string, n: nat)
    ensures OverviewKey(objectKey, uploadId) == "overview..|.." + objectKey + "..|.." + uploadId
    ensures PartKey(uploadId, n) == uploadId + "..|.." + PaddedPartNumber(n)
    ensures |PaddedPartNumber(n)| == 5
    ensures |Decimal(n)| <= 5 ==> PaddedPartNumber(n) == "00000"[|Decimal(n)|..] + Decimal(n)
  {
    var all := "000000" + Decimal(n);
    if |Decimal(n)| <= 5 {
      assert all[|all| - 5..] == "00000"[|Decimal(n)|..] + Decimal(n);
    }
  }

  /** How a listing gets the part number back: what follows the last splitter. */
  function PartNumberText(key: string): string {
    var index := LastIndexOf(key, SPLITTER);
    if index + |SPLITTER| <= |key| then key[index + |SPLITTER|..] else ""
  }

  predicate IsHex(c: char) {
    IsDigit(c) || 'a' <= c <= 'f'
  }

  /** A version 4 UUID without its dashes. */
  predicate IsUploadId(u: string) {
    |u| == 32 && forall i :: 0 <= i < |u| ==> IsHex(u[i])
  }

  // ----- padding keeps five digits of the number

  function Pow10(k: nat): nat
    ensures Pow10(k) > 0
  {
    if k == 0 then 1 else 10 * Pow10(k - 1)
  }

  /** The last k decimal digits of n. */
  function LowDigits(n: nat, k: nat): (s: string)
    ensures |s| == k && AllDigits(s)
  {
    if k == 0 then "" else LowDigits(n / 10, k - 1) + [Digit(n % 10)]
  }

  predicate AllZeros(s: string) {
    forall i :: 0 <= i < |s| ==> s[i] == '0'
  }

  lemma LastAppend(s: string, c: char, k: nat)
    requires 0 < k <= |s| + 1
    ensures Last(s + [c], k) == Last(s, k - 1) + [c]
  {
  }

  lemma {:induction false} LowDigitsOfZero(k: nat, zeros: string)
    requires |zeros| >= k && AllZeros(zeros)
    ensures Last(zeros, k) == LowDigits(0, k)
  {
    if k > 0 {
      var front := zeros[..|zeros| - 1];
      LowDigitsOfZero(k - 1, front);
      assert zeros == front + ['0'];
      LastAppend(front, '0', k);
    }
  }

  lemma PaddingStep(zeros: string, n: nat, k: nat)
    requires n >= 10 && 0 < k <= |zeros|
    requires Last(zeros + Decimal(n / 10), k - 1) == LowDigits(n / 10, k - 1)
    ensures Last(zeros + Decimal(n), k) == LowDigits(n, k)
  {
    var front, c := zeros + Decimal(n / 10), Digit(n % 10);
    assert zeros + Decimal(n) == front + [c];
    LastAppend(front, c, k);
  }

  lemma PaddingStart(zeros: string, n: nat, k: nat)
    requires n < 10 && 0 < k <= |zeros| && AllZeros(zeros)
    ensures Last(zeros + Decimal(n), k) == LowDigits(n, k)
  {
    assert n / 10 == 0 && n % 10 == n;
    LowDigitsOfZero(k - 1, zeros);
    LastAppend(zeros, Digit(n), k);
    assert Decimal(n) == [Digit(n)];
  }

  lemma {:induction false} PaddingKeepsLowDigits(zeros: string, n: nat, k: nat)
    requires |zeros| >= k && AllZeros(zeros)
    ensures Last(zeros + Decimal(n), k) == LowDigits(n, k)
    decreases n
  {
    if k > 0 && n < 10 {
      PaddingStart(zeros, n, k);
    } else if k > 0 {
      PaddingKeepsLowDigits(zeros, n / 10, k - 1);
      PaddingStep(zeros, n, k);
    }
  }

  lemma ModStep(n: nat, p: nat)
    requires p > 0
    ensures n % (10 * p) == 10 * (n / 10 % p) + n % 10
  {
    var q := n / 10;
    var a, b := q / p, q % p;
    assert q == p * a + b;
    assert n == 10 * (p * a + b) + n % 10;
    assert 10 * (p * a) == (10 * p) * a;
    var r := 10 * b + n % 10;
    assert n == (10 * p) * a + r && 0 <= r < 10 * p;
    DivModUnique(n, 10 * p, a, r);
  }

  lemma DivModUnique(n: nat, d: nat, q: nat, r: nat)
    requires d > 0 && n == d * q + r && r < d
    ensures n / d == q && n % d == r
  {
    var q', r' := n / d, n % d;
    assert d * (q' - q) == r - r';
    SmallMultiple(d, q' - q);
  }

  lemma SmallMultiple(d: int, x: int)
    requires d > 0 && -d < d * x < d
    ensures x == 0
  {
  }

  lemma {:induction false} LowDigitsValue(n: nat, k: nat)
    ensures ParseInt(LowDigits(n, k)) == n % Pow10(k)
  {
    if k > 0 {
      LowDigitsValue(n / 10, k - 1);
      ModStep(n, Pow10(k - 1));
      var s := LowDigits(n, k);
      assert s[..k - 1] == LowDigits(n / 10, k - 1) && s[k - 1] == Digit(n % 10);
    }
  }

  lemma PaddedValue(zeros: string, n: nat, k: nat)
    requires |zeros| >= k && AllZeros(zeros)
    ensures var padded := Last(zeros + Decimal(n), k);
            |padded| == k && (AllDigits(padded)) && ParseInt(padded) == n % Pow10(k)
  {
    PaddingKeepsLowDigits(zeros, n, k);
    LowDigitsValue(n, k);
  }

  /** Parsing inverts padding up to 99999; beyond that the leading digits are lost. */
  lemma ParsingInvertsPadding(n: nat)
    ensures |PaddedPartNumber(n)| == 5 && AllDigits(PaddedPartNumber(n))
    ensures ParseInt(PaddedPartNumber(n)) == n % 100000
    ensures ParseInt(PaddedPartNumber(n)) == n <==> n < 100000
  {
    PaddedValue("000000", n, 5);
    assert Pow10(5) == 100000;
  }

  lemma {:induction false} BelowAtEnd(a: string, x: char, b: string, y: char)
    requires |a| == |b|
    ensures Below(a + [x], b + [y]) <==> Below(a, b) || (a == b && x < y)
  {
    if a != "" {
      assert (a + [x])[1..] == a[1..] + [x] && (b + [y])[1..] == b[1..] + [y];
      BelowAtEnd(a[1..], x, b[1..], y);
      assert a == b <==> a[0] == b[0] && a[1..] == b[1..];
    }
  }

  /** Strings of equally many digits are ordered, and told apart, by their value. */
  lemma {:induction false} DigitsAreOrdered(a: string, b: string)
    requires |a| == |b| && (AllDigits(a)) && (AllDigits(b))
    ensures Below(a, b) <==> ParseInt(a) < ParseInt(b)
    ensures a == b <==> ParseInt(a) == ParseInt(b)
  {
    if a != "" {
      var k := |a| - 1;
      assert a == a[..k] + [a[k]] && b == b[..k] + [b[k]];
      DigitsAreOrdered(a[..k], b[..k]);
      BelowAtEnd(a[..k], a[k], b[..k], b[k]);
      assert IsDigit(a[k]) && IsDigit(b[k]);
      var x, y := a[k] as int - '0' as int, b[k] as int - '0' as int;
      assert ParseInt(a) == 10 * ParseInt(a[..k]) + x && ParseInt(b) == 10 * ParseInt(b[..k]) + y;
      assert a == b <==> a[..k] == b[..k] && a[k] == b[k];
    }
  }

  lemma {:induction false} BelowAfterPrefix(p: string, a: string, b: string)
    ensures Below(p + a, p + b) <==> Below(a, b)
  {
    if p == "" {
      assert p + a == a && p + b == b;
    } else {
      assert (p + a)[1..] == p[1..] + a && (p + b)[1..] == p[1..] + b;
      BelowAfterPrefix(p[1..], a, b);
    }
  }

  /** The part keys of an upload are listed in the order of the part numbers. */
  lemma PartKeysAreOrdered(u: string, m: nat, n: nat)
    requires m < 100000 && n < 100000
    ensures Below(PartKey(u, m), PartKey(u, n)) <==> m < n
    ensures PartKey(u, m) == PartKey(u, n) <==> m == n
  {
    ParsingInvertsPadding(m);
    ParsingInvertsPadding(n);
    DigitsAreOrdered(PaddedPartNumber(m), PaddedPartNumber(n));
    BelowAfterPrefix(u + SPLITTER, PaddedPartNumber(m), PaddedPartNumber(n));
    if PartKey(u, m) == PartKey(u, n) {
      assert PartKey(u, m)[|u| + 5..] == PaddedPartNumber(m) && PartKey(u, n)[|u| + 5..] == PaddedPartNumber(n);
    }
  }

  // ----- no two entries of the shadow bucket share a key

  /** What the shadow bucket holds entries for. */
  datatype ShadowKey = OverviewEntry(objectKey: string, uploadId: string) | PartEntry(uploadId: string, n: nat)

  function KeyOf(e: ShadowKey): string {
    match e
    case OverviewEntry(objectKey, uploadId) => OverviewKey(objectKey, uploadId)
    case PartEntry(uploadId, n) => PartKey(uploadId, n)
  }

  predicate IsEntry(e: ShadowKey) {
    IsUploadId(e.uploadId) && (e.PartEntry? ==> e.n < 100000)
  }

  lemma KeyStart(e: ShadowKey)
    requires IsEntry(e)
    ensures KeyOf(e) != "" && (KeyOf(e)[0] == 'o' <==> e.OverviewEntry?)
  {
    if e.OverviewEntry? {
      assert ("overview" + SPLITTER)[0] == 'o';
    } else {
      assert KeyOf(e)[0] == e.uploadId[0] && IsHex(e.uploadId[0]);
    }
  }

  lemma OverviewKeyParts(objectKey: string, u: string)
    requires |u| == 32
    ensures var key := OverviewKey(objectKey, u);
            |key| == 50 + |objectKey| && key[|key| - 32..] == u && key[13..|key| - 37] == objectKey
  {
    var key := OverviewKey(objectKey, u);
    assert key == ("overview" + SPLITTER) + (objectKey + (SPLITTER + u));
    assert key[13..] == objectKey + (SPLITTER + u);
  }

  /** Keys tell entries apart, whatever the object key: it may even contain the splitter. */
  lemma KeysAreInjective(a: ShadowKey, b: ShadowKey)
    requires IsEntry(a) && IsEntry(b) && KeyOf(a) == KeyOf(b)
    ensures a == b
  {
    KeyStart(a);
    KeyStart(b);
    if a.OverviewEntry? {
      OverviewKeyParts(a.objectKey, a.uploadId);
      OverviewKeyParts(b.objectKey, b.uploadId);
    } else {
      assert KeyOf(a)[..32] == a.uploadId && KeyOf(b)[..32] == b.uploadId;
      PartKeysAreOrdered(a.uploadId, a.n, b.n);
    }
  }

  /** Listing with an upload id as the prefix finds the parts of that upload, and nothing else. */
  lemma PrefixSelectsParts(u: string, e: ShadowKey)
    requires IsUploadId(u) && IsEntry(e)
    ensures u <= KeyOf(e) <==> e.PartEntry? && e.uploadId == u
  {
    KeyStart(e);
    if e.PartEntry? {
      assert KeyOf(e)[..32] == e.uploadId;
    } else {
      assert IsHex(u[0]);
    }
  }

  lemma {:induction false} LastIndexAt(s: string, t: string, i: nat, k: nat)
    requires i <= k <= |s| && OccursAt(s, t, i)
    requires forall j :: i < j ==> !OccursAt(s, t, j)
    ensures LastIndexFrom(s, t, k) == i
    decreases k
  {
    if i < k {
      LastIndexAt(s, t, i, k - 1);
    }
  }

  /** A listing reads the right number off every part key. */
  lemma PartNumberIsReadBack(u: string, n: nat)
    requires IsUploadId(u) && n < 100000
    ensures PartNumberText(PartKey(u, n)) == PaddedPartNumber(n)
    ensures AllDigits(PartNumberText(PartKey(u, n))) && ParseInt(PartNumberText(PartKey(u, n))) == n
  {
    var key, padded := PartKey(u, n), PaddedPartNumber(n);
    ParsingInvertsPadding(n);
    assert key[32..37] == SPLITTER && key[37..] == padded;
    forall j | 32 < j
      ensures !OccursAt(key, SPLITTER, j)
    {
      if j + 5 <= |key| {
        assert key[j..j + 5][4] == key[37..][j - 33] && IsDigit(padded[j - 33]);
      }
    }
    LastIndexAt(key, SPLITTER, 32, |key|);
  }
}
