/** Reading a byte range or one part of an object: which data locations are read, and which bytes of
    each. The object is the concatenation of the data behind its locations. */
module PartRanges {
  import opened Wrappers
  import opened Sequences
  import MpuModel

  /** A data location. The part number is the one in front of the colon of `dataStoreETag`; locations
      of older objects have no such tag. */
  datatype PartLocation = PartLocation(key: string, partNumber: Option<nat>, start: nat, size: nat)

  /** A location to read, as it is handed to the data layer: `range` includes its last byte. */
  datatype Read = Read(key: string, range: Option<(int, int)>, size: nat)

  /** The data behind a key. */
  type Fetch = string -> seq<bv8>

  // ----- what the object is, and what a list of reads gives

  function Content(fetch: Fetch, locations: seq<PartLocation>): seq<bv8> {
    if locations == [] then []
    else Content(fetch, locations[..|locations| - 1]) + fetch(locations[|locations| - 1].key)
  }

  /** A ranged read stops at the end of the data. */
  function ReadOne(fetch: Fetch, r: Read): seq<bv8> {
    var data := fetch(r.key);
    if r.range.None? then data else Slice(data, r.range.value.0, r.range.value.1 + 1)
  }

  /** The elements from `from` up to but not including `to`, as far as they exist. */
  function Slice<T>(s: seq<T>, from: int, to: int): seq<T> {
    var hi := if to > |s| then |s| else to;
    if 0 <= from <= hi then s[from..hi] else []
  }

  function ReadAll(fetch: Fetch, parsed: seq<Read>): seq<bv8> {
    if parsed == [] then [] else ReadAll(fetch, parsed[..|parsed| - 1]) + ReadOne(fetch, parsed[|parsed| - 1])
  }

  lemma {:induction false} ReadOneMore(fetch: Fetch, parsed: seq<Read>, r: Read)
    ensures ReadAll(fetch, parsed + [r]) == ReadAll(fetch, parsed) + ReadOne(fetch, r)
  {
    assert (parsed + [r])[..|parsed|] == parsed;
  }

  /** The data of an object is that of its locations, one after the other. */
  lemma {:induction false} ContentJoins(fetch: Fetch, a: seq<PartLocation>, b: seq<PartLocation>)
    ensures Content(fetch, a + b) == Content(fetch, a) + Content(fetch, b)
    ensures |a| == 1 ==> Content(fetch, a) == fetch(a[0].key)
  {
    if |a| == 1 {
      assert a[..0] == [];
    }
    if b == [] {
      assert a + b == a;
    } else {
      var k := |b| - 1;
      ContentJoins(fetch, a, b[..k]);
      assert (a + b)[..|a + b| - 1] == a + b[..k];
    }
  }

  /** Location i has the offset and the size of its data. */
  ghost predicate IsLaidOut(fetch: Fetch, locations: seq<PartLocation>, i: nat)
    requires i < |locations|
  {
    locations[i].start == |Content(fetch, locations[..i])| && locations[i].size == |fetch(locations[i].key)|
  }

  /** Offsets and sizes are those of the data, one location after the other. */
  ghost predicate Contiguous(fetch: Fetch, locations: seq<PartLocation>) {
    forall i: nat :: i < |locations| ==> IsLaidOut(fetch, locations, i)
  }

  lemma {:induction false} ContentStep(fetch: Fetch, locations: seq<PartLocation>, i: nat)
    requires i < |locations|
    ensures Content(fetch, locations[..i + 1]) == Content(fetch, locations[..i]) + fetch(locations[i].key)
  {
    assert locations[..i + 1][..i] == locations[..i];
  }

  lemma {:induction false} PrefixOfContent(fetch: Fetch, locations: seq<PartLocation>, i: nat)
    requires i <= |locations|
    ensures Content(fetch, locations[..i]) <= Content(fetch, locations)
    decreases |locations| - i
  {
    if i < |locations| {
      ContentStep(fetch, locations, i);
      PrefixOfContent(fetch, locations, i + 1);
    } else {
      assert locations[..i] == locations;
    }
  }

  lemma {:induction false} WholeReads(fetch: Fetch, locations: seq<PartLocation>, parsed: seq<Read>)
    requires |parsed| == |locations|
    requires forall i :: 0 <= i < |parsed| ==> parsed[i].key == locations[i].key && parsed[i].range.None?
    ensures ReadAll(fetch, parsed) == Content(fetch, locations)
  {
    if parsed != [] {
      var k := |parsed| - 1;
      WholeReads(fetch, locations[..k], parsed[..k]);
    }
  }

  // ----- setPartRanges

  function Min(a: int, b: int): int {
    if a < b then a else b
  }

  /** The read that the loop adds for one location, when `total` bytes have been found so far. */
  function RangeOf(l: PartLocation, begin: nat, max: nat, total: nat): Read
    requires l.start + l.size > begin && total < max
  {
    if l.start >= begin then
      if l.size + total <= max then Read(l.key, None, l.size)
      else
        var endPart := Min(l.size - 1, max - total - 1);
        Read(l.key, Some((0, endPart)), endPart + 1)
    else
      var startOffset := begin - l.start;
      var endPart := Min(l.size - 1, max - total + startOffset - 1);
      Read(l.key, Some((startOffset, endPart)), endPart - startOffset + 1)
  }

  /** How many bytes of [begin, begin + max) lie before `position`. */
  function Found(begin: nat, max: nat, position: nat): nat {
    if position <= begin then 0 else Min(position - begin, max)
  }

  /** The read of one location gives the part of the range that lies in it. */
  lemma {:induction false} RangeIsRight(fetch: Fetch, l: PartLocation, begin: nat, max: nat, total: nat, r: Read)
    requires l.size == |fetch(l.key)| && l.start + l.size > begin && total == Found(begin, max, l.start) < max
    requires r == RangeOf(l, begin, max, total)
    ensures total + r.size == Found(begin, max, l.start + l.size)
    ensures l.start <= begin + total <= begin + total + r.size <= l.start + l.size
    ensures ReadOne(fetch, r) == fetch(l.key)[begin + total - l.start..begin + total + r.size - l.start]
  {
  }

  lemma {:induction false} SubSlice(whole: seq<bv8>, before: nat, data: seq<bv8>, from: nat, to: nat)
    requires before + |data| <= |whole| && whole[before..before + |data|] == data
    requires before <= from <= to <= before + |data|
    ensures data[from - before..to - before] == whole[from..to]
  {
    forall k | 0 <= k < to - from
      ensures data[from - before..to - before][k] == whole[from..to][k]
    {
      assert whole[before..before + |data|][from - before + k] == whole[from + k];
    }
  }

  lemma {:induction false} SliceGrows(whole: seq<bv8>, begin: nat, total: nat, n: nat)
    requires begin + total + n <= |whole|
    ensures Slice(whole, begin, begin + total) + whole[begin + total..begin + total + n] == Slice(whole, begin, begin + total + n)
  {
  }

  ghost predicate RightSizes(fetch: Fetch, parsed: seq<Read>) {
    forall r <- parsed :: r.size == |ReadOne(fetch, r)|
  }

  /** The loop has found the first `total` bytes from `begin` on. */
  ghost predicate ReadSoFar(fetch: Fetch, whole: seq<bv8>, begin: nat, total: nat, parsed: seq<Read>) {
    ReadAll(fetch, parsed) == Slice(whole, begin, begin + total) && RightSizes(fetch, parsed)
  }

  lemma {:induction false} ReadPiece(fetch: Fetch, whole: seq<bv8>, begin: nat, total: nat, parsed: seq<Read>, r: Read)
    requires ReadSoFar(fetch, whole, begin, total, parsed) && begin + total + r.size <= |whole|
    requires ReadOne(fetch, r) == whole[begin + total..begin + total + r.size]
    ensures ReadSoFar(fetch, whole, begin, total + r.size, parsed + [r])
  {
    ReadOneMore(fetch, parsed, r);
    SliceGrows(whole, begin, total, r.size);
  }

  ghost predicate InPlace(fetch: Fetch, whole: seq<bv8>, l: PartLocation) {
    l.size == |fetch(l.key)| && l.start + l.size <= |whole| && whole[l.start..l.start + l.size] == fetch(l.key)
  }

  lemma {:induction false} ReadLocation(fetch: Fetch, whole: seq<bv8>, l: PartLocation, begin: nat, max: nat, total: nat,
                                        parsed: seq<Read>, r: Read)
    requires InPlace(fetch, whole, l) && l.start + l.size > begin && total == Found(begin, max, l.start) < max
    requires r == RangeOf(l, begin, max, total) && ReadSoFar(fetch, whole, begin, total, parsed)
    ensures ReadSoFar(fetch, whole, begin, total + r.size, parsed + [r])
    ensures total + r.size == Found(begin, max, l.start + l.size)
  {
    RangeIsRight(fetch, l, begin, max, total, r);
    SubSlice(whole, l.start, fetch(l.key), begin + total, begin + total + r.size);
    ReadPiece(fetch, whole, begin, total, parsed, r);
  }

  lemma {:induction false} LocationInContent(fetch: Fetch, locations: seq<PartLocation>, i: nat)
    requires Contiguous(fetch, locations) && i < |locations|
    ensures InPlace(fetch, Content(fetch, locations), locations[i])
    ensures |Content(fetch, locations[..i])| == locations[i].start
    ensures |Content(fetch, locations[..i + 1])| == locations[i].start + locations[i].size
  {
    assert IsLaidOut(fetch, locations, i);
    ContentStep(fetch, locations, i);
    PrefixOfContent(fetch, locations, i + 1);
  }

  /** Where location i should start. */
  function EndBefore(locations: seq<PartLocation>, i: nat): nat
    requires i <= |locations|
  {
    if i == 0 then 0 else locations[i - 1].start + locations[i - 1].size
  }

  /** Location i lies in the object, right behind the one before. */
  ghost predicate FollowsOn(fetch: Fetch, whole: seq<bv8>, locations: seq<PartLocation>, i: nat)
    requires i < |locations|
  {
    InPlace(fetch, whole, locations[i]) && locations[i].start == EndBefore(locations, i)
  }

  /** The locations cover the object. */
  ghost predicate Covers(fetch: Fetch, whole: seq<bv8>, locations: seq<PartLocation>) {
    && (forall i: nat :: i < |locations| ==> FollowsOn(fetch, whole, locations, i))
    && EndBefore(locations, |locations|) == |whole|
  }

  lemma {:induction false} LocationFollowsOn(fetch: Fetch, locations: seq<PartLocation>, i: nat)
    requires Contiguous(fetch, locations) && i < |locations|
    ensures FollowsOn(fetch, Content(fetch, locations), locations, i)
  {
    LocationInContent(fetch, locations, i);
    if i > 0 {
      LocationInContent(fetch, locations, i - 1);
    } else {
      assert locations[..i] == [];
    }
  }

  lemma {:induction false} ContiguousCovers(fetch: Fetch, locations: seq<PartLocation>)
    requires Contiguous(fetch, locations)
    ensures Covers(fetch, Content(fetch, locations), locations)
  {
    forall i: nat | i < |locations|
      ensures FollowsOn(fetch, Content(fetch, locations), locations, i)
    {
      LocationFollowsOn(fetch, locations, i);
    }
    if locations != [] {
      LocationInContent(fetch, locations, |locations| - 1);
      assert locations[..|locations|] == locations;
    }
  }

  lemma {:induction false} AllRead(fetch: Fetch, whole: seq<bv8>, begin: nat, max: nat, total: nat, position: nat,
                                   parsed: seq<Read>)
    requires ReadSoFar(fetch, whole, begin, total, parsed) && total == Found(begin, max, position)
    requires position == |whole| || (total == max && position <= |whole|)
    ensures ReadAll(fetch, parsed) == Slice(whole, begin, begin + max)
  {
  }

  /** The size that comes out for the only location of an object is not the number of bytes read when
      the range starts after its first byte and goes past its end. A parsed Range header never does. */
  predicate SizeIsWrong(range: Option<(nat, int)>, locations: nat, length: nat) {
    locations == 1 && range.Some? && 0 < range.value.0 <= range.value.1 && 0 < length <= range.value.1
  }

  /** The locations to read for a range, which includes its last byte, or for the whole object. The
      range may start behind the end of the object, and may be empty. */
  method SetPartRanges(locations: seq<PartLocation>, range: Option<(nat, int)>, ghost fetch: Fetch) returns (parsed: seq<Read>)
    requires Contiguous(fetch, locations)
    requires range.Some? ==> range.value.0 <= range.value.1 + 1
    ensures ReadAll(fetch, parsed) == if range.None? then Content(fetch, locations)
                                      else Slice(Content(fetch, locations), range.value.0, range.value.1 + 1)
    ensures RightSizes(fetch, parsed) <==> !SizeIsWrong(range, |locations|, |Content(fetch, locations)|)
  {
    if range.None? {
      parsed := seq(|locations|, i requires 0 <= i < |locations| => Read(locations[i].key, None, locations[i].size));
      WholeReads(fetch, locations, parsed);
      assert forall i: nat :: i < |locations| ==> IsLaidOut(fetch, locations, i) ==> parsed[i].size == |ReadOne(fetch, parsed[i])|;
      return;
    }
    var begin, end := range.value.0, range.value.1;
    var max: nat := end - begin + 1;
    if |locations| == 1 {
      var sole := locations[0];
      var size := if sole.size != 0 then Min(sole.size, end - begin + 1) else 0;
      parsed := [Read(sole.key, Some((begin, end)), size)];
      SoleLocation(fetch, locations, begin, end, size, parsed[0]);
      return;
    }
    ContiguousCovers(fetch, locations);
    parsed := ReadRange(locations, begin, max, fetch, Content(fetch, locations));
  }

  /** More than one location: those before the range are skipped, and the loop ends with the range. */
  method ReadRange(locations: seq<PartLocation>, begin: nat, max: nat, ghost fetch: Fetch, ghost whole: seq<bv8>)
    returns (parsed: seq<Read>)
    requires Covers(fetch, whole, locations)
    ensures ReadAll(fetch, parsed) == Slice(whole, begin, begin + max)
    ensures RightSizes(fetch, parsed)
  {
    parsed := [];
    var total: nat, i: nat := 0, 0;
    while i < |locations|
      invariant i <= |locations| && EndBefore(locations, i) <= |whole|
      invariant total == Found(begin, max, EndBefore(locations, i)) && ReadSoFar(fetch, whole, begin, total, parsed)
    {
      if total >= max {
        break;
      }
      var l := locations[i];
      assert FollowsOn(fetch, whole, locations, i);
      i := i + 1;
      if l.start + l.size <= begin {
        continue;
      }
      var r := RangeOf(l, begin, max, total);
      ReadLocation(fetch, whole, l, begin, max, total, parsed, r);
      parsed := parsed + [r];
      total := total + r.size;
      if l.start >= begin && r.range.Some? {
        break;
      }
    }
    AllRead(fetch, whole, begin, max, total, EndBefore(locations, i), parsed);
  }

  lemma {:induction false} SoleLocation(fetch: Fetch, locations: seq<PartLocation>, begin: nat, end: int, size: nat, r: Read)
    requires |locations| == 1 && Contiguous(fetch, locations) && begin <= end + 1
    requires size == if locations[0].size != 0 then Min(locations[0].size, end - begin + 1) else 0
    requires r == Read(locations[0].key, Some((begin, end)), size)
    ensures ReadAll(fetch, [r]) == Slice(Content(fetch, locations), begin, end + 1)
    ensures RightSizes(fetch, [r]) <==> !SizeIsWrong(Some((begin, end)), 1, |Content(fetch, locations)|)
  {
    SoleContent(fetch, locations);
    SoleRead(fetch, r);
    SoleSize(fetch(locations[0].key), begin, end);
  }

  lemma {:induction false} SoleContent(fetch: Fetch, locations: seq<PartLocation>)
    requires |locations| == 1 && Contiguous(fetch, locations)
    ensures Content(fetch, locations) == fetch(locations[0].key) && |Content(fetch, locations)| == locations[0].size
  {
    assert IsLaidOut(fetch, locations, 0);
    assert locations[..0] == [] && Content(fetch, locations[..0]) == [];
  }

  lemma {:induction false} SoleRead(fetch: Fetch, r: Read)
    ensures ReadAll(fetch, [r]) == ReadOne(fetch, r)
    ensures RightSizes(fetch, [r]) <==> r.size == |ReadOne(fetch, r)|
  {
    ReadOneMore(fetch, [], r);
    assert [] + [r] == [r] && r in [r];
  }

  lemma {:induction false} SoleSize(data: seq<bv8>, begin: nat, end: int)
    requires begin <= end + 1
    ensures |Slice(data, begin, end + 1)| == (if data != [] then Min(|data|, end - begin + 1) else 0)
            <==> !SizeIsWrong(Some((begin, end)), 1, |data|)
  {
  }

  // ----- one part of an object

  function NumberOf(l: PartLocation): nat {
    if l.partNumber.Some? then l.partNumber.value else 1
  }

  /** Locations are in the order of their part numbers, as a completion leaves them. */
  ghost predicate Sorted(locations: seq<PartLocation>) {
    forall i, j :: 0 <= i < j < |locations| ==> NumberOf(locations[i]) <= NumberOf(locations[j])
  }

  /** The locations of one part. */
  function PartOf(locations: seq<PartLocation>, n: nat): seq<PartLocation> {
    if locations == [] then []
    else
      var k := |locations| - 1;
      PartOf(locations[..k], n) + if NumberOf(locations[k]) == n then [locations[k]] else []
  }

  lemma {:induction false} PartOfOneMore(locations: seq<PartLocation>, n: nat, i: nat)
    requires i < |locations|
    ensures PartOf(locations[..i + 1], n)
            == PartOf(locations[..i], n) + if NumberOf(locations[i]) == n then [locations[i]] else []
  {
    assert locations[..i + 1][..i] == locations[..i];
  }

  lemma {:induction false} NoMoreOfPart(locations: seq<PartLocation>, n: nat, i: nat)
    requires i <= |locations| && forall j :: i <= j < |locations| ==> NumberOf(locations[j]) != n
    ensures PartOf(locations, n) == PartOf(locations[..i], n)
    decreases |locations| - i
  {
    if i == |locations| {
      assert locations[..i] == locations;
    } else {
      PartOfOneMore(locations, n, i);
      NoMoreOfPart(locations, n, i + 1);
    }
  }

  /** The loop has come to location i, and has selected those of part n; they are the last ones
      before i, and their data is the end of the data so far. */
  ghost predicate Selected(fetch: Fetch, locations: seq<PartLocation>, n: nat, i: nat, selected: seq<PartLocation>)
    requires i <= |locations|
  {
    && selected == PartOf(locations[..i], n)
    && (selected != [] ==>
         && i > 0 && selected[|selected| - 1] == locations[i - 1]
         && selected[0].start <= |Content(fetch, locations[..i])|
         && Content(fetch, selected) == Content(fetch, locations[..i])[selected[0].start..])
  }

  lemma {:induction false} SelectMore(fetch: Fetch, locations: seq<PartLocation>, n: nat, i: nat, selected: seq<PartLocation>)
    requires Contiguous(fetch, locations) && i < |locations| && Selected(fetch, locations, n, i, selected)
    requires NumberOf(locations[i]) == n
    ensures Selected(fetch, locations, n, i + 1, selected + [locations[i]])
  {
    var l, before := locations[i], Content(fetch, locations[..i]);
    ContentStep(fetch, locations, i);
    PartOfOneMore(locations, n, i);
    assert (selected + [l])[..|selected|] == selected;
    assert IsLaidOut(fetch, locations, i);
    if selected == [] {
      assert Content(fetch, selected) == [];
      assert (before + fetch(l.key))[|before|..] == fetch(l.key);
    } else {
      assert (before + fetch(l.key))[selected[0].start..] == before[selected[0].start..] + fetch(l.key);
    }
  }

  /** The bytes of a part lie together in the object. */
  lemma {:induction false} SelectedBytes(fetch: Fetch, locations: seq<PartLocation>, n: nat, i: nat, selected: seq<PartLocation>)
    requires Contiguous(fetch, locations) && i <= |locations| && Selected(fetch, locations, n, i, selected) && selected != []
    ensures var start, last := selected[0].start, selected[|selected| - 1];
            && start <= last.start + last.size
            && Content(fetch, selected) == Slice(Content(fetch, locations), start, last.start + last.size)
            && |Content(fetch, selected)| == last.start + last.size - start
  {
    EndOfPart(fetch, locations, i);
    PrefixOfContent(fetch, locations, i);
    TailOfPrefix(Content(fetch, locations), Content(fetch, locations[..i]), selected[0].start);
  }

  lemma {:induction false} EndOfPart(fetch: Fetch, locations: seq<PartLocation>, i: nat)
    requires Contiguous(fetch, locations) && 0 < i <= |locations|
    ensures |Content(fetch, locations[..i])| == locations[i - 1].start + locations[i - 1].size
  {
    LocationInContent(fetch, locations, i - 1);
  }

  lemma {:induction false} TailOfPrefix(whole: seq<bv8>, prefix: seq<bv8>, start: nat)
    requires prefix <= whole && start <= |prefix|
    ensures Slice(whole, start, |prefix|) == prefix[start..] && |prefix[start..]| == |prefix| - start
  {
  }

  /** The locations of a part, by the loop that stops behind them. */
  method SelectPart(locations: seq<PartLocation>, partNumber: nat, ghost fetch: Fetch)
    returns (selected: seq<PartLocation>, ghost i: nat)
    requires Contiguous(fetch, locations) && Sorted(locations)
    ensures selected == PartOf(locations, partNumber)
    ensures i <= |locations| && Selected(fetch, locations, partNumber, i, selected)
  {
    selected, i := [], 0;
    assert locations[..0] == [];
    for k := 0 to |locations|
      invariant i == k && Selected(fetch, locations, partNumber, k, selected)
    {
      var n := NumberOf(locations[k]);
      if n == partNumber {
        SelectMore(fetch, locations, partNumber, k, selected);
        selected := selected + [locations[k]];
      } else if n > partNumber {
        NoMoreOfPart(locations, partNumber, k);
        return;
      } else {
        PartOfOneMore(locations, partNumber, k);
        NothingBefore(locations, partNumber, k);
      }
      i := k + 1;
    }
    assert locations[..|locations|] == locations;
  }

  /** With a smaller number still at position k, nothing of the part comes before. */
  lemma {:induction false} NothingBefore(locations: seq<PartLocation>, n: nat, k: nat)
    requires Sorted(locations) && k < |locations| && NumberOf(locations[k]) < n
    ensures PartOf(locations[..k], n) == []
  {
    NoMoreOfPart(locations[..k], n, 0);
    assert locations[..k][..0] == [];
  }

  // ----- GET

  datatype PartParam = NoPart | NotANumber | Number(n: int)

  /** What a GET answers with: the length it announces, and what the data layer is to read. */
  datatype Answer = Answer(contentLength: nat, parsed: seq<Read>)

  ghost predicate InRange(range: Option<(nat, int)>, length: nat) {
    range.Some? ==> range.value.0 <= range.value.1 < length
  }

  /** A location of an older object, which has no number, is one of part 1. */
  predicate BelongsTo(l: PartLocation, n: int) {
    if l.partNumber.Some? then l.partNumber.value == n else n == 1
  }

  predicate HasPart(locations: seq<PartLocation>, n: int) {
    exists i :: 0 <= i < |locations| && BelongsTo(locations[i], n)
  }

  /** Of the first k locations, those from a to b are of part n, and no others are. */
  ghost predicate IsStretch(locations: seq<PartLocation>, n: int, k: nat, a: nat, b: nat) {
    a < b <= k <= |locations| && forall i :: 0 <= i < k ==> (BelongsTo(locations[i], n) <==> a <= i < b)
  }

  lemma {:induction false} PartIsStretch(locations: seq<PartLocation>, n: nat, k: nat) returns (a: nat, b: nat)
    requires Sorted(locations) && k <= |locations| && PartOf(locations[..k], n) != []
    ensures IsStretch(locations, n, k, a, b) && PartOf(locations[..k], n) == locations[a..b]
  {
    PartOfOneMore(locations, n, k - 1);
    if PartOf(locations[..k - 1], n) == [] {
      NothingOfPart(locations, n, k - 1);
      a, b := k - 1, k;
      StretchBegins(locations, n, k - 1);
    } else {
      a, b := PartIsStretch(locations, n, k - 1);
      if BelongsTo(locations[k - 1], n) {
        StretchEnds(locations, n, k - 1, a, b);
        b := k;
        StretchGrows(locations, n, k - 1, a);
      } else {
        StretchStays(locations, n, k - 1, a, b);
      }
    }
  }

  lemma {:induction false} StretchBegins(locations: seq<PartLocation>, n: nat, k: nat)
    requires k < |locations| && BelongsTo(locations[k], n) && forall i :: 0 <= i < k ==> !BelongsTo(locations[i], n)
    ensures IsStretch(locations, n, k + 1, k, k + 1) && [locations[k]] == locations[k..k + 1]
  {
  }

  lemma {:induction false} StretchGrows(locations: seq<PartLocation>, n: nat, k: nat, a: nat)
    requires k < |locations| && BelongsTo(locations[k], n) && IsStretch(locations, n, k, a, k)
    ensures IsStretch(locations, n, k + 1, a, k + 1) && locations[a..k] + [locations[k]] == locations[a..k + 1]
  {
  }

  lemma {:induction false} StretchStays(locations: seq<PartLocation>, n: nat, k: nat, a: nat, b: nat)
    requires k < |locations| && !BelongsTo(locations[k], n) && IsStretch(locations, n, k, a, b)
    ensures IsStretch(locations, n, k + 1, a, b)
  {
  }

  /** With the next location in the part, the stretch before it goes up to it. */
  lemma {:induction false} StretchEnds(locations: seq<PartLocation>, n: nat, k: nat, a: nat, b: nat)
    requires Sorted(locations) && k < |locations| && BelongsTo(locations[k], n) && IsStretch(locations, n, k, a, b)
    ensures b == k
  {
    if b < k {
      MiddleBelongs(locations, n, a, b, k);
    }
  }

  lemma {:induction false} MiddleBelongs(locations: seq<PartLocation>, n: nat, a: nat, b: nat, k: nat)
    requires Sorted(locations) && a < b < k < |locations|
    requires BelongsTo(locations[a], n) && BelongsTo(locations[k], n)
    ensures BelongsTo(locations[b], n)
  {
    assert NumberOf(locations[a]) <= NumberOf(locations[b]) <= NumberOf(locations[k]);
  }

  lemma {:induction false} NothingOfPart(locations: seq<PartLocation>, n: nat, k: nat)
    requires k <= |locations|
    ensures PartOf(locations[..k], n) == [] <==> forall i :: 0 <= i < k ==> !BelongsTo(locations[i], n)
  {
    if k > 0 {
      PartOfOneMore(locations, n, k - 1);
      NothingOfPart(locations, n, k - 1);
    }
  }

  /** The byte range of a part that is present, as the handler computes it; the end is exclusive. */
  function PartStart(locations: seq<PartLocation>, n: nat): nat {
    var part := PartOf(locations, n);
    if part == [] then 0 else part[0].start
  }

  function PartEnd(locations: seq<PartLocation>, n: nat): nat {
    var part := PartOf(locations, n);
    if part == [] then 0 else part[|part| - 1].start + part[|part| - 1].size
  }

  /** An object that has data. A part is answered with exactly its bytes, a range with exactly its
      bytes, and the announced length is the number of bytes that are read. */
  method GetObject(locations: seq<PartLocation>, range: Option<(nat, int)>, part: PartParam, ghost fetch: Fetch)
    returns (r: Result<Answer>)
    requires Contiguous(fetch, locations) && Sorted(locations) && InRange(range, |Content(fetch, locations)|)
    ensures part.NoPart? ==> r.Ok?
    ensures r == Err("InvalidRequest") <==> !part.NoPart? && range.Some?
    ensures r == Err("InvalidArgument") <==>
      range.None? && (part.NotANumber? || (part.Number? && !(1 <= part.n <= 10000)))
    ensures r == Err("InvalidPartNumber") <==>
      range.None? && part.Number? && 1 <= part.n <= 10000 && !HasPart(locations, part.n)
    ensures r.Err? ==> r.error in {"InvalidRequest", "InvalidArgument", "InvalidPartNumber"}
    ensures r.Ok? ==> r.value.contentLength == |ReadAll(fetch, r.value.parsed)|
    ensures r.Ok? && part.NoPart? && range.None? ==> ReadAll(fetch, r.value.parsed) == Content(fetch, locations)
    ensures r.Ok? && part.NoPart? && range.Some? ==>
      ReadAll(fetch, r.value.parsed) == Content(fetch, locations)[range.value.0..range.value.1 + 1]
    ensures r.Ok? && part.Number? ==> exists a: nat, b: nat ::
      (IsStretch(locations, part.n, |locations|, a, b) && ReadAll(fetch, r.value.parsed) == Content(fetch, locations[a..b]))
  {
    if !part.NoPart? {
      if range.Some? {
        return Err("InvalidRequest");
      }
      if part.NotANumber? || part.n < 1 || part.n > MpuModel.MAX_PART_NUMBER {
        return Err("InvalidArgument");
      }
      assert locations[..|locations|] == locations;
      NothingOfPart(locations, part.n, |locations|);
      if HasPart(locations, part.n) {
        var a, b := PartIsStretch(locations, part.n, |locations|);
      }
      r := GetPart(locations, part.n, fetch);
      return;
    }
    var parsed := SetPartRanges(locations, range, fetch);
    var contentLength := if range.Some? then range.value.1 - range.value.0 + 1 else Length(locations);
    LengthIs(fetch, locations);
    return Ok(Answer(contentLength, parsed));
  }

  method GetPart(locations: seq<PartLocation>, n: nat, ghost fetch: Fetch) returns (r: Result<Answer>)
    requires Contiguous(fetch, locations) && Sorted(locations)
    ensures if PartOf(locations, n) == [] then r == Err("InvalidPartNumber")
            else r.Ok? && ReadAll(fetch, r.value.parsed) == Content(fetch, PartOf(locations, n))
                 && r.value.contentLength == |ReadAll(fetch, r.value.parsed)|
                 && r.value.contentLength == PartEnd(locations, n) - PartStart(locations, n)
  {
    var selected, i := SelectPart(locations, n, fetch);
    if selected == [] {
      return Err("InvalidPartNumber");
    }
    SelectedBytes(fetch, locations, n, i, selected);
    var start, last := selected[0].start, selected[|selected| - 1];
    var end := last.start + last.size - 1;
    var parsed := SetPartRanges(locations, Some((start, end)), fetch);
    return Ok(Answer(end - start + 1, parsed));
  }

  /** The size that the metadata gives. */
  function Length(locations: seq<PartLocation>): nat {
    if locations == [] then 0 else locations[|locations| - 1].start + locations[|locations| - 1].size
  }

  lemma {:induction false} LengthIs(fetch: Fetch, locations: seq<PartLocation>)
    requires Contiguous(fetch, locations)
    ensures Length(locations) == |Content(fetch, locations)|
  {
    if locations != [] {
      EndOfPart(fetch, locations, |locations|);
      assert locations[..|locations|] == locations;
    }
  }

  // ----- all parts together

  /** The part numbers of an object, each once. */
  function Numbers(locations: seq<PartLocation>): seq<nat> {
    if locations == [] then []
    else
      var k := |locations| - 1;
      var before, n := Numbers(locations[..k]), NumberOf(locations[k]);
      if before != [] && before[|before| - 1] == n then before else before + [n]
  }

  /** What GETs of these parts give, one after the other. */
  function Parts(fetch: Fetch, locations: seq<PartLocation>, numbers: seq<nat>): seq<bv8> {
    if numbers == [] then []
    else
      var k := |numbers| - 1;
      Parts(fetch, locations, numbers[..k]) + Content(fetch, PartOf(locations, numbers[k]))
  }

  lemma {:induction false} NumbersAscend(locations: seq<PartLocation>)
    requires Sorted(locations)
    ensures Ascending(Numbers(locations))
    ensures locations == [] <==> Numbers(locations) == []
    ensures locations != [] ==> Numbers(locations)[|Numbers(locations)| - 1] == NumberOf(locations[|locations| - 1])
  {
    if locations != [] {
      var k := |locations| - 1;
      NumbersAscend(locations[..k]);
      assert k > 0 ==> NumberOf(locations[k - 1]) <= NumberOf(locations[k]);
    }
  }

  lemma {:induction false} LastLocation(fetch: Fetch, locations: seq<PartLocation>, n: nat)
    requires locations != []
    ensures var k := |locations| - 1;
            Content(fetch, PartOf(locations, n))
            == Content(fetch, PartOf(locations[..k], n)) + if NumberOf(locations[k]) == n then fetch(locations[k].key) else []
  {
    var k := |locations| - 1;
    var part := PartOf(locations[..k], n);
    if NumberOf(locations[k]) == n {
      assert PartOf(locations, n) == part + [locations[k]];
      assert (part + [locations[k]])[..|part|] == part;
    } else {
      assert PartOf(locations, n) == part;
    }
  }

  lemma {:induction false} OtherParts(fetch: Fetch, locations: seq<PartLocation>, numbers: seq<nat>)
    requires locations != [] && NumberOf(locations[|locations| - 1]) !in numbers
    ensures Parts(fetch, locations, numbers) == Parts(fetch, locations[..|locations| - 1], numbers)
  {
    if numbers != [] {
      var m := |numbers| - 1;
      OtherParts(fetch, locations, numbers[..m]);
      LastLocation(fetch, locations, numbers[m]);
      assert numbers[m] in numbers;
    }
  }

  /** Getting all parts of an object, in the order of their numbers, gives the object: the parts
      leave no byte out and share none. */
  lemma {:induction false} PartsTileObject(fetch: Fetch, locations: seq<PartLocation>)
    requires Sorted(locations)
    ensures Parts(fetch, locations, Numbers(locations)) == Content(fetch, locations)
  {
    if locations != [] {
      var k := |locations| - 1;
      var init, l, numbers := locations[..k], locations[k], Numbers(locations);
      PartsTileObject(fetch, init);
      NumbersAscend(init);
      NumbersAscend(locations);
      var m := |numbers| - 1;
      OtherParts(fetch, locations, numbers[..m]);
      PartGrows(fetch, locations, numbers);
    }
  }

  lemma {:induction false} PartGrows(fetch: Fetch, locations: seq<PartLocation>, numbers: seq<nat>)
    requires locations != [] && numbers == Numbers(locations) && Sorted(locations)
    requires numbers != [] && numbers[|numbers| - 1] == NumberOf(locations[|locations| - 1])
    ensures var k, m := |locations| - 1, |numbers| - 1;
            Parts(fetch, locations[..k], numbers[..m]) + Content(fetch, PartOf(locations, numbers[m]))
            == Parts(fetch, locations[..k], Numbers(locations[..k])) + fetch(locations[k].key)
  {
    var k, m := |locations| - 1, |numbers| - 1;
    var init, before := locations[..k], Numbers(locations[..k]);
    LastLocation(fetch, locations, numbers[m]);
    var others, data := Parts(fetch, init, numbers[..m]), fetch(locations[k].key);
    var part := Content(fetch, PartOf(init, numbers[m]));
    assert others + (part + data) == others + part + data;
    if numbers == before {
      assert Parts(fetch, init, before) == others + part;
    } else {
      assert numbers[..m] == before;
      NewNumber(init, before, numbers[m]);
      assert others + part == others;
    }
  }

  lemma {:induction false} NewNumber(init: seq<PartLocation>, before: seq<nat>, n: nat)
    requires before == Numbers(init) && Sorted(init) && (before == [] || before[|before| - 1] < n)
    ensures PartOf(init, n) == []
  {
    if init != [] {
      NumbersAscend(init);
      NoMoreOfPart(init, n, 0);
      assert init[..0] == [];
    }
  }

  // ----- the ranges and announced lengths of all parts

  /** The byte range of a part, and those of several; the ends are exclusive. */
  function RangeOfPart(locations: seq<PartLocation>, n: nat): (nat, nat) {
    (PartStart(locations, n), PartEnd(locations, n))
  }

  function Ranges(locations: seq<PartLocation>, numbers: seq<nat>): (ranges: seq<(nat, nat)>)
    ensures |ranges| == |numbers|
  {
    if numbers == [] then []
    else
      var k := |numbers| - 1;
      Ranges(locations, numbers[..k]) + [RangeOfPart(locations, numbers[k])]
  }

  /** The ranges begin at 0, each one where the one before ends, and end at `length`. */
  predicate Tile(ranges: seq<(nat, nat)>, length: nat) {
    if ranges == [] then length == 0
    else
      var k := |ranges| - 1;
      ranges[k].1 == length && ranges[k].0 <= length && Tile(ranges[..k], ranges[k].0)
  }

  function SumLengths(ranges: seq<(nat, nat)>): int {
    if ranges == [] then 0
    else
      var k := |ranges| - 1;
      SumLengths(ranges[..k]) + ranges[k].1 - ranges[k].0
  }

  lemma {:induction false} TiledLengthsAddUp(ranges: seq<(nat, nat)>, length: nat)
    requires Tile(ranges, length)
    ensures SumLengths(ranges) == length
  {
    if ranges != [] {
      TiledLengthsAddUp(ranges[..|ranges| - 1], ranges[|ranges| - 1].0);
    }
  }

  lemma {:induction false} PrefixIsContiguous(fetch: Fetch, locations: seq<PartLocation>, k: nat)
    requires Contiguous(fetch, locations) && k <= |locations|
    ensures Contiguous(fetch, locations[..k])
  {
    forall i: nat | i < k
      ensures IsLaidOut(fetch, locations[..k], i)
    {
      assert IsLaidOut(fetch, locations, i) && locations[..k][..i] == locations[..i];
    }
  }

  /** What the last location does to a part: its part ends with it, and starts with it if it is new. */
  lemma {:induction false} LastLocationRange(locations: seq<PartLocation>, n: nat)
    requires locations != []
    ensures var k := |locations| - 1;
            var init, l := locations[..k], locations[k];
            && (n != NumberOf(l) ==> RangeOfPart(locations, n) == RangeOfPart(init, n))
            && (n == NumberOf(l) ==>
                 RangeOfPart(locations, n) == (if PartOf(init, n) == [] then l.start else PartStart(init, n), l.start + l.size))
  {
  }

  lemma {:induction false} EarlierRanges(locations: seq<PartLocation>, numbers: seq<nat>)
    requires locations != [] && NumberOf(locations[|locations| - 1]) !in numbers
    ensures Ranges(locations, numbers) == Ranges(locations[..|locations| - 1], numbers)
  {
    if numbers != [] {
      var k := |numbers| - 1;
      EarlierRanges(locations, numbers[..k]);
      assert numbers[k] in numbers;
      LastLocationRange(locations, numbers[k]);
    }
  }

  /** For every object: a part is present exactly if its number is one of the object's numbers, the
      ranges of the parts, in the order of their numbers, lie end to start over the whole object, and
      the lengths that GETs of all parts announce add up to the object's. */
  lemma {:induction false} PartRangesTile(fetch: Fetch, locations: seq<PartLocation>)
    requires Contiguous(fetch, locations) && Sorted(locations)
    ensures forall n: nat :: PartOf(locations, n) != [] <==> n in Numbers(locations)
    ensures Tile(Ranges(locations, Numbers(locations)), |Content(fetch, locations)|)
    ensures SumLengths(Ranges(locations, Numbers(locations))) == |Content(fetch, locations)|
  {
    forall n: nat
      ensures PartOf(locations, n) != [] <==> n in Numbers(locations)
    {
      PresentParts(locations, n);
    }
    RangesTile(fetch, locations);
    TiledLengthsAddUp(Ranges(locations, Numbers(locations)), |Content(fetch, locations)|);
  }

  lemma {:induction false} PresentParts(locations: seq<PartLocation>, n: nat)
    ensures PartOf(locations, n) != [] <==> n in Numbers(locations)
  {
    if locations != [] {
      PresentParts(locations[..|locations| - 1], n);
    }
  }

  lemma {:induction false} RangesTile(fetch: Fetch, locations: seq<PartLocation>)
    requires Contiguous(fetch, locations) && Sorted(locations)
    ensures Tile(Ranges(locations, Numbers(locations)), |Content(fetch, locations)|)
  {
    if locations != [] {
      var k := |locations| - 1;
      PrefixIsContiguous(fetch, locations, k);
      RangesTile(fetch, locations[..k]);
      LocationInContent(fetch, locations, k);
      assert locations[..k + 1] == locations;
      OneMoreTile(locations, Numbers(locations[..k]), Numbers(locations), locations[k].start);
    }
  }

  /** All ranges but the last are those without the last location. */
  lemma {:induction false} OthersStay(locations: seq<PartLocation>, numbers: seq<nat>)
    requires Sorted(locations) && locations != [] && numbers == Numbers(locations)
    ensures numbers != [] && numbers[|numbers| - 1] == NumberOf(locations[|locations| - 1])
    ensures var m := |numbers| - 1;
            Ranges(locations, numbers)[..m] == Ranges(locations[..|locations| - 1], numbers[..m])
            && Ranges(locations, numbers)[m] == RangeOfPart(locations, numbers[m])
  {
    var m := |numbers| - 1;
    NumbersAscend(locations);
    EarlierRanges(locations, numbers[..m]);
    assert Ranges(locations, numbers) == Ranges(locations, numbers[..m]) + [RangeOfPart(locations, numbers[m])];
  }

  /** The last location belongs to a part that is there already. */
  lemma {:induction false} SamePartTile(locations: seq<PartLocation>, numbers: seq<nat>, length: nat)
    requires Sorted(locations) && locations != [] && locations[|locations| - 1].start == length
    requires numbers == Numbers(locations) == Numbers(locations[..|locations| - 1])
    requires Tile(Ranges(locations[..|locations| - 1], numbers), length)
    ensures Tile(Ranges(locations, numbers), length + locations[|locations| - 1].size)
  {
    var init, m := locations[..|locations| - 1], |numbers| - 1;
    OthersStay(locations, numbers);
    LastLocationRange(locations, numbers[m]);
    PresentParts(init, numbers[m]);
    assert Ranges(init, numbers) == Ranges(init, numbers[..m]) + [RangeOfPart(init, numbers[m])];
  }

  /** The last location is a part of its own. */
  lemma {:induction false} NewPartTile(locations: seq<PartLocation>, before: seq<nat>, numbers: seq<nat>, length: nat)
    requires Sorted(locations) && locations != [] && locations[|locations| - 1].start == length
    requires before == Numbers(locations[..|locations| - 1]) && numbers == Numbers(locations) != before
    requires Tile(Ranges(locations[..|locations| - 1], before), length)
    ensures Tile(Ranges(locations, numbers), length + locations[|locations| - 1].size)
  {
    var init, m := locations[..|locations| - 1], |numbers| - 1;
    OthersStay(locations, numbers);
    LastLocationRange(locations, numbers[m]);
    assert numbers[..m] == before;
    NumbersAscend(init);
    NewNumber(init, before, numbers[m]);
  }

  lemma {:induction false} OneMoreTile(locations: seq<PartLocation>, before: seq<nat>, numbers: seq<nat>, length: nat)
    requires Sorted(locations) && locations != [] && locations[|locations| - 1].start == length
    requires before == Numbers(locations[..|locations| - 1]) && numbers == Numbers(locations)
    requires Tile(Ranges(locations[..|locations| - 1], before), length)
    ensures Tile(Ranges(locations, numbers), length + locations[|locations| - 1].size)
  {
    if numbers == before {
      SamePartTile(locations, numbers, length);
    } else {
      NewPartTile(locations, before, numbers, length);
    }
  }
}
