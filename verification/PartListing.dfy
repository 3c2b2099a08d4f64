/** Listing the parts of an upload: all at once for a completion, page by page for a client. */
module PartListing {
  import opened Wrappers
  import opened Sequences
  import opened MpuKeys
  import opened Locations
  import M = MpuModel

  const LISTING_HARD_LIMIT := 1000
  const COMPLETION_MAX_KEYS := 10000

  // ----- the listing of the metadata service

  /** The keys that a listing is about: those with the prefix, after the marker. */
  predicate Matches(key: string, prefix: string, marker: Option<string>) {
    prefix <= key && (marker.Some? ==> Below(marker.value, key))
  }

  /** What the metadata service promises: the first `maxKeys` matching keys in string order, and
      whether there are more. */
  ghost predicate IsListing(keys: set<string>, prefix: string, marker: Option<string>, maxKeys: nat,
                            contents: seq<string>, isTruncated: bool) {
    && (forall i, j :: 0 <= i < j < |contents| ==> Below(contents[i], contents[j]))
    && (forall key <- contents :: key in keys && Matches(key, prefix, marker))
    && (forall key, other :: key in keys && Matches(key, prefix, marker) && key !in contents && other in contents ==>
          Below(other, key))
    && |contents| <= maxKeys
    && (isTruncated <==> exists key :: key in keys && Matches(key, prefix, marker) && key !in contents)
    && (isTruncated ==> |contents| == maxKeys)
  }

  /** The keys of a shadow bucket that holds these entries. */
  function KeysOf(entries: set<ShadowKey>): set<string> {
    set e | e in entries :: KeyOf(e)
  }

  ghost predicate IsBucket(entries: set<ShadowKey>) {
    forall e :: e in entries ==> IsEntry(e)
  }

  /** The part numbers of an upload that come after the marker. */
  function PartsAfter(entries: set<ShadowKey>, u: string, marker: Option<nat>): set<nat> {
    set e | e in entries && e.PartEntry? && e.uploadId == u && (marker.None? || marker.value < e.n) :: e.n
  }

  lemma PartsAfterHas(entries: set<ShadowKey>, u: string, marker: Option<nat>, n: nat)
    ensures n in PartsAfter(entries, u, marker)
       <==> PartEntry(u, n) in entries && (marker.None? || marker.value < n)
  {
    if PartEntry(u, n) in entries && (marker.None? || marker.value < n) {
      assert PartEntry(u, n).PartEntry? && PartEntry(u, n).uploadId == u && PartEntry(u, n).n == n;
    }
    if n in PartsAfter(entries, u, marker) {
      var e :| e in entries && e.PartEntry? && e.uploadId == u && (marker.None? || marker.value < e.n) && e.n == n;
      assert e == PartEntry(u, n);
    }
  }

  // ----- ascending sequences

  ghost function Smallest(s: set<nat>): (m: nat)
    requires s != {}
    ensures m in s && forall x <- s :: m <= x
  {
    SmallestExists(s);
    var m :| m in s && forall x <- s :: m <= x;
    m
  }

  lemma SmallestExists(s: set<nat>)
    requires s != {}
    ensures exists m :: m in s && forall x <- s :: m <= x
  {
    var m := FindSmallest(s);
  }

  lemma {:induction false} FindSmallest(s: set<nat>) returns (m: nat)
    requires s != {}
    ensures m in s && forall x <- s :: m <= x
  {
    m :| m in s;
    var rest := s - {m};
    assert forall x <- s :: x == m || x in rest;
    if rest != {} {
      var k := FindSmallest(rest);
      m := if k < m then k else m;
    }
  }

  /** The elements of a set in ascending order. */
  ghost function Sorted(s: set<nat>): seq<nat> {
    if s == {} then [] else [Smallest(s)] + Sorted(s - {Smallest(s)})
  }

  lemma {:induction false} SortedFacts(s: set<nat>)
    ensures |Sorted(s)| == |s| && Ascending(Sorted(s))
    ensures forall x :: x in Sorted(s) <==> x in s
  {
    if s != {} {
      var m := Smallest(s);
      SortedFacts(s - {m});
      var rest := Sorted(s - {m});
      forall i | 0 <= i < |rest|
        ensures m < rest[i]
      {
        assert rest[i] in rest;
      }
    }
  }

  lemma FirstIsSmallest(s: set<nat>, r: seq<nat>)
    requires Ascending(r) && r != [] && forall x <- r :: x in s
    requires forall x, y :: x in s && x !in r && y in r ==> y < x
    ensures r[0] in s && Smallest(s) == r[0]
  {
    assert r[0] in r;
    forall x | x in s
      ensures r[0] <= x
    {
      if x in r {
        var i :| 0 <= i < |r| && r[i] == x;
      }
    }
  }

  lemma RestIsAbove(s: set<nat>, r: seq<nat>)
    requires r != [] && forall x, y :: x in s && x !in r && y in r ==> y < x
    ensures forall x, y :: x in s - {r[0]} && x !in r[1..] && y in r[1..] ==> y < x
  {
    assert r == [r[0]] + r[1..];
    assert forall x :: x in r <==> x == r[0] || x in r[1..];
  }

  /** An ascending sequence of elements, with all the rest above it, is where Sorted begins. */
  lemma {:induction false} SortedPrefix(s: set<nat>, r: seq<nat>)
    requires Ascending(r) && forall x <- r :: x in s
    requires forall x, y :: x in s && x !in r && y in r ==> y < x
    ensures r <= Sorted(s)
  {
    if r != [] {
      FirstIsSmallest(s, r);
      var rest := r[1..];
      assert r == [r[0]] + rest;
      assert forall x <- rest :: x in r && x != r[0];
      RestIsAbove(s, r);
      SortedPrefix(s - {r[0]}, rest);
    }
  }

  lemma BeyondPrefix(r: seq<nat>, all: seq<nat>)
    requires Ascending(all) && r <= all
    ensures forall i :: |r| <= i < |all| ==> all[i] !in r
  {
    forall i, j | |r| <= i < |all| && 0 <= j < |r|
      ensures r[j] < all[i]
    {
      assert all[j] < all[i];
    }
  }

  lemma WholePrefix(r: seq<nat>, all: seq<nat>)
    requires Ascending(all) && r <= all && forall i :: 0 <= i < |all| ==> all[i] in r
    ensures r == all
  {
    var next := if |r| < |all| then all[|r|] else 0;
    BeyondPrefix(r, all);
    assert |r| < |all| ==> next in r;
  }

  lemma TailIsAbove(all: seq<nat>, k: nat, x: nat)
    requires Ascending(all) && 0 < k <= |all|
    ensures x in all[k..] <==> x in all && all[k - 1] < x
  {
    if x in all[k..] {
      var j :| 0 <= j < |all[k..]| && all[k..][j] == x;
      assert all[k + j] == x;
    }
    if x in all && all[k - 1] < x {
      var j :| 0 <= j < |all| && all[j] == x;
      assert k - 1 < j;
      assert all[k..][j - k] == x;
    }
  }

  lemma SortedIs(s: set<nat>, r: seq<nat>)
    requires Ascending(r) && forall x :: x in s <==> x in r
    ensures Sorted(s) == r
  {
    SortedFacts(s);
    SortedPrefix(s, r);
    forall i | 0 <= i < |Sorted(s)|
      ensures Sorted(s)[i] in r
    {
      assert Sorted(s)[i] in Sorted(s);
    }
    WholePrefix(r, Sorted(s));
  }

  // ----- what a listing of parts returns

  function KeysFor(u: string, numbers: seq<nat>): seq<string> {
    seq(|numbers|, i requires 0 <= i < |numbers| => PartKey(u, numbers[i]))
  }

  lemma MatchesPart(u: string, marker: Option<nat>, e: ShadowKey)
    requires IsUploadId(u) && IsEntry(e) && (marker.Some? ==> marker.value < 100000)
    ensures Matches(KeyOf(e), u, if marker.Some? then Some(PartKey(u, marker.value)) else None)
       <==> e.PartEntry? && e.uploadId == u && (marker.None? || marker.value < e.n)
  {
    PrefixSelectsParts(u, e);
    if marker.Some? && e.PartEntry? && e.uploadId == u {
      PartKeysAreOrdered(u, marker.value, e.n);
    }
  }

  /** Each listed key is the key of a part of the upload. */
  lemma ListedPart(entries: set<ShadowKey>, u: string, marker: Option<nat>, key: string) returns (n: nat)
    requires IsBucket(entries) && IsUploadId(u) && (marker.Some? ==> marker.value < 100000)
    requires key in KeysOf(entries)
    requires Matches(key, u, if marker.Some? then Some(PartKey(u, marker.value)) else None)
    ensures key == PartKey(u, n) && n in PartsAfter(entries, u, marker) && n < 100000
  {
    var e :| e in entries && KeyOf(e) == key;
    MatchesPart(u, marker, e);
    n := e.n;
    PartsAfterHas(entries, u, marker, n);
  }

  lemma {:induction false} ListedParts(entries: set<ShadowKey>, u: string, marker: Option<nat>, contents: seq<string>)
    returns (numbers: seq<nat>)
    requires IsBucket(entries) && IsUploadId(u) && (marker.Some? ==> marker.value < 100000)
    requires forall key <- contents ::
        key in KeysOf(entries) && Matches(key, u, if marker.Some? then Some(PartKey(u, marker.value)) else None)
    ensures contents == KeysFor(u, numbers) && forall n <- numbers :: n in PartsAfter(entries, u, marker) && n < 100000
  {
    numbers := [];
    if contents != [] {
      var last := |contents| - 1;
      assert contents[last] in contents;
      numbers := ListedParts(entries, u, marker, contents[..last]);
      var n := ListedPart(entries, u, marker, contents[last]);
      numbers := numbers + [n];
      assert contents == contents[..last] + [contents[last]];
    }
  }

  /** The listed numbers are ascending, and the parts that are not listed come after them. */
  lemma ListedAreFirst(entries: set<ShadowKey>, u: string, marker: Option<nat>, maxKeys: nat, numbers: seq<nat>, isTruncated: bool)
    requires IsBucket(entries) && IsUploadId(u) && (marker.Some? ==> marker.value < 100000)
    requires forall n <- numbers :: n in PartsAfter(entries, u, marker) && n < 100000
    requires IsListing(KeysOf(entries), u, if marker.Some? then Some(PartKey(u, marker.value)) else None, maxKeys,
                       KeysFor(u, numbers), isTruncated)
    ensures Ascending(numbers)
    ensures forall x, y :: x in PartsAfter(entries, u, marker) && x !in numbers && y in numbers ==> y < x
    ensures (exists x :: x in PartsAfter(entries, u, marker) && x !in numbers) ==> isTruncated
  {
    var contents := KeysFor(u, numbers);
    forall i, j | 0 <= i < j < |numbers|
      ensures numbers[i] < numbers[j]
    {
      assert Below(contents[i], contents[j]) && numbers[i] in numbers && numbers[j] in numbers;
      PartKeysAreOrdered(u, numbers[i], numbers[j]);
    }
    forall x | x in PartsAfter(entries, u, marker) && x !in numbers
      ensures isTruncated && forall y :: y in numbers ==> y < x
    {
      UnlistedPart(entries, u, marker, numbers, x);
      forall i | 0 <= i < |numbers|
        ensures numbers[i] < x
      {
        assert contents[i] in contents && numbers[i] in numbers;
        PartKeysAreOrdered(u, numbers[i], x);
      }
    }
  }

  /** A truncated listing leaves out some part. */
  lemma TruncatedLeavesOut(entries: set<ShadowKey>, u: string, marker: Option<nat>, maxKeys: nat, numbers: seq<nat>)
    returns (n: nat)
    requires IsBucket(entries) && IsUploadId(u) && (marker.Some? ==> marker.value < 100000)
    requires IsListing(KeysOf(entries), u, if marker.Some? then Some(PartKey(u, marker.value)) else None, maxKeys,
                       KeysFor(u, numbers), true)
    ensures n in PartsAfter(entries, u, marker) && n !in numbers
  {
    var contents := KeysFor(u, numbers);
    var key :| key in KeysOf(entries) && key !in contents
      && Matches(key, u, if marker.Some? then Some(PartKey(u, marker.value)) else None);
    n := ListedPart(entries, u, marker, key);
    forall i | 0 <= i < |numbers|
      ensures numbers[i] != n
    {
      assert contents[i] in contents && contents[i] == PartKey(u, numbers[i]);
    }
  }

  /** A listing of parts returns the keys of the smallest part numbers after the marker, and is
      truncated exactly when there are more. */
  lemma ListingOfParts(entries: set<ShadowKey>, u: string, marker: Option<nat>, maxKeys: nat, contents: seq<string>,
                       isTruncated: bool)
    requires IsBucket(entries) && IsUploadId(u) && (marker.Some? ==> marker.value < 100000)
    requires IsListing(KeysOf(entries), u, if marker.Some? then Some(PartKey(u, marker.value)) else None, maxKeys,
                       contents, isTruncated)
    ensures var all := Sorted(PartsAfter(entries, u, marker));
            && |contents| <= |all| && contents == KeysFor(u, all[..|contents|])
            && (isTruncated <==> |contents| < |all|)
            && (isTruncated ==> |contents| == maxKeys)
  {
    var wanted := PartsAfter(entries, u, marker);
    var numbers := ListedParts(entries, u, marker, contents);
    ListedAreFirst(entries, u, marker, maxKeys, numbers, isTruncated);
    SortedPrefix(wanted, numbers);
    SortedFacts(wanted);
    if isTruncated {
      var n := TruncatedLeavesOut(entries, u, marker, maxKeys, numbers);
      assert n in Sorted(wanted) && n !in numbers;
    } else {
      SortedIs(wanted, numbers);
    }
  }

  lemma UnlistedPart(entries: set<ShadowKey>, u: string, marker: Option<nat>, numbers: seq<nat>, x: nat)
    requires IsBucket(entries) && IsUploadId(u) && (marker.Some? ==> marker.value < 100000)
    requires forall n <- numbers :: n < 100000
    requires x in PartsAfter(entries, u, marker) && x !in numbers
    ensures x < 100000 && PartKey(u, x) in KeysOf(entries) && PartKey(u, x) !in KeysFor(u, numbers)
    ensures Matches(PartKey(u, x), u, if marker.Some? then Some(PartKey(u, marker.value)) else None)
  {
    PartsAfterHas(entries, u, marker, x);
    var e := PartEntry(u, x);
    assert KeyOf(e) == PartKey(u, x) && IsEntry(e);
    MatchesPart(u, marker, e);
    forall i | 0 <= i < |numbers|
      ensures KeysFor(u, numbers)[i] != PartKey(u, x)
    {
      assert numbers[i] in numbers;
      PartKeysAreOrdered(u, numbers[i], x);
    }
  }

  // ----- the completion listing

  predicate HasNumberInRange(put: M.Put) {
    put.Begun? || put.SawPart? || put.Copied? || put.Ready? ==> 1 <= put.n <= M.MAX_PART_NUMBER
  }

  /** Every put-part request was given an acceptable part number. */
  ghost predicate NumbersInRange(s: M.State) {
    && (forall n :: n in s.store.parts ==> 1 <= n <= M.MAX_PART_NUMBER)
    && (forall p :: p in s.puts ==> HasNumberInRange(s.puts[p]))
  }

  lemma StepKeepsPartsInRange(s: M.State, e: M.Event, t: M.State)
    requires NumbersInRange(s) && M.Step(s, e) == Some(t)
    ensures forall n :: n in t.store.parts ==> 1 <= n <= M.MAX_PART_NUMBER
  {
    if e.PutStorePart? {
      assert HasNumberInRange(s.puts[e.pid]);
    }
  }

  lemma StepKeepsPutsInRange(s: M.State, e: M.Event, t: M.State)
    requires NumbersInRange(s) && M.Step(s, e) == Some(t)
    ensures forall p :: p in t.puts ==> HasNumberInRange(t.puts[p])
  {
    forall p | p in t.puts
      ensures HasNumberInRange(t.puts[p])
    {
      assert p in s.puts ==> HasNumberInRange(s.puts[p]);
    }
  }

  lemma StepKeepsNumbersInRange(s: M.State, e: M.Event, t: M.State)
    requires NumbersInRange(s) && M.Step(s, e) == Some(t)
    ensures NumbersInRange(t)
  {
    StepKeepsPartsInRange(s, e, t);
    StepKeepsPutsInRange(s, e, t);
  }

  lemma {:induction false} RunsKeepNumbersInRange(s: M.State, events: seq<M.Event>, t: M.State)
    requires NumbersInRange(s) && M.Run(s, events) == Some(t)
    ensures NumbersInRange(t)
    decreases |events|
  {
    if events != [] {
      var next := M.Step(s, events[0]).value;
      StepKeepsNumbersInRange(s, events[0], next);
      RunsKeepNumbersInRange(next, events[1..], t);
    }
  }

  lemma {:induction false} CountUpTo(s: set<nat>, k: nat)
    requires forall n <- s :: 1 <= n <= k
    ensures |s| <= k
  {
    if k == 0 {
      assert s == {};
    } else {
      CountUpTo(s - {k}, k - 1);
    }
  }

  /** The shadow bucket stores the parts of upload u as the protocol state says. */
  ghost predicate Stores(entries: set<ShadowKey>, u: string, parts: map<nat, seq<Location>>) {
    && IsBucket(entries)
    && (forall n :: PartEntry(u, n) in entries <==> n in parts)
  }

  /** In every reachable state, the listing of a completion has all stored parts, in the order of
      their numbers, and is not truncated. */
  lemma CompletionSeesAllParts(s: M.State, events: seq<M.Event>, t: M.State, entries: set<ShadowKey>, u: string,
                               contents: seq<string>, isTruncated: bool)
    requires M.Initial(s) && M.Run(s, events) == Some(t) && IsUploadId(u) && Stores(entries, u, t.store.parts)
    requires IsListing(KeysOf(entries), u, None, COMPLETION_MAX_KEYS, contents, isTruncated)
    ensures !isTruncated && contents == KeysFor(u, Sorted(t.store.parts.Keys))
  {
    RunsKeepNumbersInRange(s, events, t);
    var wanted := PartsAfter(entries, u, None);
    forall n: nat
      ensures n in wanted <==> n in t.store.parts
    {
      PartsAfterHas(entries, u, None, n);
    }
    assert wanted == t.store.parts.Keys;
    CountUpTo(wanted, M.MAX_PART_NUMBER);
    SortedFacts(wanted);
    ListingOfParts(entries, u, None, COMPLETION_MAX_KEYS, contents, isTruncated);
    assert Sorted(wanted)[..|Sorted(wanted)|] == Sorted(wanted);
  }

  // ----- listParts, page by page

  /** The `max-parts` and `part-number-marker` parameters; None when missing or no number. */
  function MaxParts(requested: Option<int>): Result<nat> {
    var maxParts := if requested.Some? && requested.value != 0 then requested.value else 1000;
    if maxParts < 0 then Err("InvalidArgument")
    else Ok(if maxParts > LISTING_HARD_LIMIT then LISTING_HARD_LIMIT else maxParts)
  }

  /** A page has 1000 parts if nothing else, or more, is asked for; a negative number is refused. */
  lemma MaxPartsIs(requested: Option<int>)
    ensures MaxParts(requested) ==
      if requested.Some? && requested.value < 0 then Err("InvalidArgument")
      else if requested.Some? && 1 <= requested.value <= 1000 then Ok(requested.value)
      else Ok(1000)
  {
  }

  /** What one request answers with. */
  datatype Page = Page(marker: nat, partNumbers: seq<nat>, next: Option<nat>)

  /** The numbers shown are read off the listed keys; the next marker is the last of them. */
  function ShowParts(marker: nat, contents: seq<string>, isTruncated: bool): Page
    requires forall key <- contents :: AllDigits(PartNumberText(key))
  {
    var partNumbers := seq(|contents|, i requires 0 <= i < |contents| => ParseInt(PartNumberText(contents[i])));
    Page(marker, partNumbers,
         if isTruncated && partNumbers != [] then Some(partNumbers[|partNumbers| - 1]) else None)
  }

  /** The answer to a request with this marker, given what the metadata service lists. */
  ghost predicate Answers(entries: set<ShadowKey>, u: string, page: Page, maxParts: nat, contents: seq<string>, isTruncated: bool) {
    && IsListing(KeysOf(entries), u, Some(PartKey(u, page.marker)), maxParts, contents, isTruncated)
    && (forall key <- contents :: AllDigits(PartNumberText(key)))
    && page == ShowParts(page.marker, contents, isTruncated)
  }

  /** A page that listParts may answer with, for any acceptable page size. */
  ghost predicate IsPage(entries: set<ShadowKey>, u: string, page: Page) {
    exists requested :: IsPageOf(entries, u, page, requested)
  }

  /** The page for this page size. */
  ghost predicate IsPageOf(entries: set<ShadowKey>, u: string, page: Page, requested: Option<int>) {
    MaxParts(requested).Ok?
    && exists contents, isTruncated :: Answers(entries, u, page, MaxParts(requested).value, contents, isTruncated)
  }

  /** A page has as many parts as were asked for, up to 1000, or all that remain. */
  lemma PageIsFull(entries: set<ShadowKey>, u: string, page: Page, requested: Option<int>)
    requires IsBucket(entries) && IsUploadId(u) && page.marker < 100000 && IsPageOf(entries, u, page, requested)
    ensures var limit := if requested.Some? && 1 <= requested.value <= 1000 then requested.value else 1000;
            page.partNumbers == if |Remaining(entries, u, page.marker)| <= limit then Remaining(entries, u, page.marker)
                                else Remaining(entries, u, page.marker)[..limit]
  {
    var contents, isTruncated :| Answers(entries, u, page, MaxParts(requested).value, contents, isTruncated);
    MaxPartsIs(requested);
    AnswerShowsNextParts(entries, u, page, MaxParts(requested).value, contents, isTruncated);
  }

  lemma ShownNumber(entries: set<ShadowKey>, u: string, marker: nat, n: nat)
    requires IsBucket(entries) && IsUploadId(u) && n in PartsAfter(entries, u, Some(marker))
    ensures AllDigits(PartNumberText(PartKey(u, n))) && ParseInt(PartNumberText(PartKey(u, n))) == n
  {
    PartsAfterHas(entries, u, Some(marker), n);
    assert IsEntry(PartEntry(u, n));
    PartNumberIsReadBack(u, n);
  }

  /** The parts that are left to show after a marker. */
  ghost function Remaining(entries: set<ShadowKey>, u: string, marker: nat): seq<nat> {
    Sorted(PartsAfter(entries, u, Some(marker)))
  }

  lemma AnswerShowsNextParts(entries: set<ShadowKey>, u: string, page: Page, maxParts: nat, contents: seq<string>, isTruncated: bool)
    requires IsBucket(entries) && IsUploadId(u) && page.marker < 100000 && maxParts > 0
    requires Answers(entries, u, page, maxParts, contents, isTruncated)
    ensures page.partNumbers <= Remaining(entries, u, page.marker)
    ensures page.next.None? <==> page.partNumbers == Remaining(entries, u, page.marker)
    ensures |page.partNumbers| <= maxParts && (page.next.Some? ==> |page.partNumbers| == maxParts)
  {
    ListingOfParts(entries, u, Some(page.marker), maxParts, contents, isTruncated);
    var all := Remaining(entries, u, page.marker);
    forall i | 0 <= i < |contents|
      ensures page.partNumbers[i] == all[i]
    {
      SortedFacts(PartsAfter(entries, u, Some(page.marker)));
      assert all[i] in all && contents[i] == PartKey(u, all[i]);
      ShownNumber(entries, u, page.marker, all[i]);
    }
    assert page.partNumbers == all[..|contents|];
  }

  /** A page shows the next parts after its marker, and names the last one when there are more. */
  lemma PageShowsNextParts(entries: set<ShadowKey>, u: string, page: Page)
    requires IsBucket(entries) && IsUploadId(u) && page.marker < 100000 && IsPage(entries, u, page)
    ensures page.partNumbers <= Remaining(entries, u, page.marker)
    ensures page.next.None? <==> page.partNumbers == Remaining(entries, u, page.marker)
    ensures page.next.Some? ==> page.partNumbers != [] && page.next.value == page.partNumbers[|page.partNumbers| - 1]
  {
    var requested :| IsPageOf(entries, u, page, requested);
    var contents, isTruncated :| Answers(entries, u, page, MaxParts(requested).value, contents, isTruncated);
    AnswerShowsNextParts(entries, u, page, MaxParts(requested).value, contents, isTruncated);
  }

  // ----- following the markers

  /** Each page starts where the page before said, and only the last one may end the listing. */
  ghost predicate Follows(entries: set<ShadowKey>, u: string, marker: nat, pages: seq<Page>)
    decreases |pages|
  {
    pages == []
    || (pages[0].marker == marker && IsPage(entries, u, pages[0])
        && if pages[0].next.Some? then Follows(entries, u, pages[0].next.value, pages[1..]) else |pages| == 1)
  }

  function Shown(pages: seq<Page>): seq<nat> {
    if pages == [] then [] else pages[0].partNumbers + Shown(pages[1..])
  }

  /** What is left after a page is what was left before it, less what it shows. */
  lemma RemainingAfterPage(entries: set<ShadowKey>, u: string, marker: nat, k: nat)
    requires 0 < k <= |Remaining(entries, u, marker)|
    ensures Remaining(entries, u, marker)[k - 1] > marker
    ensures Remaining(entries, u, Remaining(entries, u, marker)[k - 1]) == Remaining(entries, u, marker)[k..]
  {
    var all := Remaining(entries, u, marker);
    var last, rest := all[k - 1], all[k..];
    var before, wanted := PartsAfter(entries, u, Some(marker)), PartsAfter(entries, u, Some(last));
    SortedFacts(before);
    SortedFacts(wanted);
    assert last in all && last in before;
    PartsAfterHas(entries, u, Some(marker), last);
    forall x: nat
      ensures x in wanted <==> x in rest
    {
      PartsAfterHas(entries, u, Some(marker), x);
      PartsAfterHas(entries, u, Some(last), x);
      TailIsAbove(all, k, x);
    }
    SortedIs(wanted, rest);
  }

  lemma SplitRemaining(entries: set<ShadowKey>, u: string, marker: nat, shown: seq<nat>)
    requires IsBucket(entries) && shown != [] && shown <= Remaining(entries, u, marker)
    ensures shown[|shown| - 1] < 100000
    ensures Remaining(entries, u, marker) == shown + Remaining(entries, u, shown[|shown| - 1])
  {
    var all, k := Remaining(entries, u, marker), |shown|;
    RemainingAfterPage(entries, u, marker, k);
    SortedFacts(PartsAfter(entries, u, Some(marker)));
    assert shown[k - 1] == all[k - 1] && all[k - 1] in all;
    PartsAfterHas(entries, u, Some(marker), all[k - 1]);
    assert IsEntry(PartEntry(u, all[k - 1]));
  }

  lemma FirstFollows(entries: set<ShadowKey>, u: string, marker: nat, pages: seq<Page>)
    requires Follows(entries, u, marker, pages) && pages != []
    ensures pages[0].marker == marker && IsPage(entries, u, pages[0])
    ensures if pages[0].next.Some? then Follows(entries, u, pages[0].next.value, pages[1..]) else pages[1..] == []
  {
  }

  /** A page with a next marker splits what remains into what it shows and what comes after. */
  lemma PageSplitsRemaining(entries: set<ShadowKey>, u: string, page: Page)
    requires IsBucket(entries) && IsUploadId(u) && page.marker < 100000 && IsPage(entries, u, page)
    ensures page.next.None? ==> page.partNumbers == Remaining(entries, u, page.marker)
    ensures page.next.Some? ==>
      && page.next.value < 100000 && page.partNumbers != []
      && Remaining(entries, u, page.marker) == page.partNumbers + Remaining(entries, u, page.next.value)
  {
    PageShowsNextParts(entries, u, page);
    if page.next.Some? {
      SplitRemaining(entries, u, page.marker, page.partNumbers);
    }
  }

  /** The listing has come to its end: its last page names no marker. */
  predicate HasEnded(pages: seq<Page>) {
    pages != [] && pages[|pages| - 1].next.None?
  }

  /** The pages show a first stretch of `remaining`, and all of it when they have ended. */
  predicate ShowFirst(pages: seq<Page>, remaining: seq<nat>) {
    && Shown(pages) <= remaining && |pages| <= |remaining| + 1
    && (HasEnded(pages) ==> Shown(pages) == remaining)
  }

  lemma OnePageMore(pages: seq<Page>, after: seq<nat>)
    requires pages != [] && pages[0].partNumbers != [] && pages[0].next.Some? && ShowFirst(pages[1..], after)
    ensures ShowFirst(pages, pages[0].partNumbers + after)
  {
    assert HasEnded(pages) ==> HasEnded(pages[1..]);
  }

  /** Following the markers, with any page sizes, shows the parts in ascending order, each of them
      once, and ends: there are at most as many pages as parts, or one when there are none. When
      the last page names no marker, every part has been shown. */
  lemma {:induction false} PagesShowEveryPartOnce(entries: set<ShadowKey>, u: string, marker: nat, pages: seq<Page>)
    requires IsBucket(entries) && IsUploadId(u) && marker < 100000 && Follows(entries, u, marker, pages)
    ensures ShowFirst(pages, Remaining(entries, u, marker))
    decreases |pages|
  {
    if pages != [] {
      var page, rest := pages[0], pages[1..];
      FirstFollows(entries, u, marker, pages);
      PageSplitsRemaining(entries, u, page);
      if page.next.Some? {
        PagesShowEveryPartOnce(entries, u, page.next.value, rest);
        OnePageMore(pages, Remaining(entries, u, page.next.value));
      } else {
        assert Shown(pages) == page.partNumbers + Shown(rest);
      }
    }
  }
}
