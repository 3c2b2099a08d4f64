/** When uploads are safe: the exact condition on the part lists of the completion attempts, and on
    when other requests may write the key. */
module MpuOthers {
  import opened Wrappers
  import opened Sequences
  import opened Locations
  import opened MpuModel
  import opened MpuInvariant
  import opened MpuSafety

  /** All runs whose completion attempts name these lists, and where others write the key only before
      attempt i. No attempt begins in a suspended bucket after one that began while versioning was enabled. */
  ghost predicate AlwaysSafe(lists: seq<seq<nat>>, i: nat) {
    forall s, events, t ::
      Initial(s) && Leads(s, events, lists, t) && OnlyBefore(OtherWrites, events, i)
      && NotSuspendedAgain(Statuses(s.store.versioning, events))
      ==> Safe(t.store)
  }

  /** Between two stretches in which nobody else writes the key, one other write. */
  lemma OneOtherLeads(s: State, a: seq<Event>, la: seq<seq<nat>>, m: State, e: Event, o: State,
                      b: seq<Event>, lb: seq<seq<nat>>, t: State)
    requires Goes(s, a, la, m) && e.OtherPut? && Step(m, e) == Some(o) && Goes(o, b, lb, t)
    ensures Leads(s, a + [e] + b, la + lb, t)
    ensures forall i: nat :: |la| <= i ==> OnlyBefore(OtherWrites, a + [e] + b, i)
    ensures NotSuspendedAgain(Statuses(s.store.versioning, a + [e] + b))
  {
    SameStatus(s.store.versioning, a + [e] + b);
    RunPath([e], [m, o]);
    assert Attempts([e]) == Attempts([e][1..]) == [];
    LeadsOn(s, a, la, m, [e], [], o);
    LeadsOn(s, a + [e], la + [], o, b, lb, t);
    assert la + [] + lb == la + lb;
    forall i: nat | |la| <= i
      ensures OnlyBefore(OtherWrites, a + [e] + b, i)
    {
      AloneIsBefore(a, i);
      AloneIsBefore(b, i - |la|);
      assert [e][1..] == [];
      assert OnlyBefore(OtherWrites, [e], i - |la|);
      OnlyBeforeJoins(OtherWrites, a, [e], i);
      OnlyBeforeJoins(OtherWrites, a + [e], b, i);
    }
  }

  // ----- a bucket without versioning, or with versioning suspended

  /** After a commit that is not cleaned up; the new object is a null version. */
  ghost predicate Exposed(s: State, k: nat, m: nat, status: Versioning) {
    && s.completion == Idle && s.store.versioning == status != Enabled
    && s.store.parts == PartsUpTo(k) && 1 <= m <= k && s.store.issued == Uploaded(k, status).store.issued
    && s.store.versions.Keys == {0} && s.store.master == Some(0) && MasterIsNull(s.store)
    && PartData(m) in s.store.versions[0].location
  }

  /** Another write then deletes data that the stored parts still refer to. */
  lemma OtherPutDeletes(s: State, k: nat, m: nat, status: Versioning) returns (o: State)
    requires Exposed(s, k, m, status)
    ensures Step(s, OtherPut(1, [PartData(k + 1)])) == Some(o) && !Safe(o.store) && o.completion == Idle
  {
    forall n: nat | 1 <= n <= k
      ensures PartData(n) != PartData(k + 1)
    {
      PartDataDiffers(n, k + 1);
    }
    o := Step(s, OtherPut(1, [PartData(k + 1)])).value;
    assert PartData(m) in o.store.deleted && m in o.store.parts && PartData(m) in o.store.parts[m];
  }

  lemma CommitNullVersion(list: seq<nat>, k: nat, status: Versioning) returns (events: seq<Event>, a: State, m: nat)
    requires k <= MAX_PART_NUMBER && IsPartList(list, k) && status != Enabled
    ensures Goes(Uploaded(k, status), events, [list], a) && Exposed(a, k, m, status)
  {
    var u := Uploaded(k, status);
    var attempt := AttemptAfterFailures(u, [list], 0, 0, 0);
    var b := AfterAttempt(u, list, 0);
    a := b.(completion := Idle);
    GoesOne(b, CompleteStop, a);
    assert [list][0..1] == [list];
    GoesThen(u, attempt, [list], b, [CompleteStop], a);
    events := attempt + [CompleteStop];
    m := list[0];
    CommitExposes(list, k, status);
  }

  lemma CommitExposes(list: seq<nat>, k: nat, status: Versioning)
    requires IsPartList(list, k) && status != Enabled
    ensures Exposed(AfterAttempt(Uploaded(k, status), list, 0).(completion := Idle), k, list[0], status)
  {
    var m := list[0];
    assert m in list && m in PartsUpTo(k);
    LocateAll(list, PartsUpTo(k), m, PartData(m));
  }

  /** One other write after the first attempt has begun is enough, in every bucket without versioning,
      and in every one where it is suspended. */
  lemma LaterOtherPutLosesData(lists: seq<seq<nat>>, i: nat, status: Versioning) returns (events: seq<Event>, t: State)
    requires lists != [] && i > 0 && forall list <- lists :: IsPartList(list, MAX_PART_NUMBER)
    requires status != Enabled
    ensures Initial(Uploaded(0, status)) && Leads(Uploaded(0, status), events, lists, t) && !Safe(t.store)
    ensures OnlyBefore(OtherWrites, events, i) && NotSuspendedAgain(Statuses(status, events))
  {
    var k, u := MAX_PART_NUMBER, Uploaded(0, status);
    var e0 := UploadGoes(k, status);
    var e1, a, m := CommitNullVersion(lists[0], k, status);
    GoesFirst(u, e0, Uploaded(k, status), e1, [lists[0]], a);
    t := OtherPutDeletes(a, k, m, status);
    var e2 := FailedAttempts(t, lists[1..]);
    OneOtherLeads(u, e0 + e1, [lists[0]], a, OtherPut(1, [PartData(k + 1)]), t, e2, lists[1..], t);
    events := e0 + e1 + [OtherPut(1, [PartData(k + 1)])] + e2;
    assert [lists[0]] + lists[1..] == lists;
  }

  // ----- the exact condition

  /** The exact condition on the clients of an upload, for all part lists and every attempt i: no run
      in which others write the key only before attempt i loses data if and only if each attempt names
      at least the parts that the attempts before it named, and others write only before the first
      attempt, if there is one. */
  lemma SafeExactly(lists: seq<seq<nat>>, i: nat)
    requires forall list <- lists :: IsPartList(list, MAX_PART_NUMBER)
    ensures AlwaysSafe(lists, i) <==> Grow(lists) && (i == 0 || lists == [])
  {
    if !Grow(lists) {
      var a, b :| 0 <= a < b < |lists| && !(ToSet(lists[a]) <= ToSet(lists[b]));
      var events, t := ShrinkingListLosesData(lists, a, b, MAX_PART_NUMBER);
      AloneIsBefore(events, i);
      SameStatus(Enabled, events);
      assert Initial(Uploaded(0));
    } else if i > 0 && lists != [] {
      var events, t := LaterOtherPutLosesData(lists, i, NotConfigured);
    } else {
      forall s, events, t |
        Initial(s) && Leads(s, events, lists, t) && OnlyBefore(OtherWrites, events, i)
        && NotSuspendedAgain(Statuses(s.store.versioning, events))
        ensures Safe(t.store)
      {
        if lists == [] {
          BeforeAttempts(OtherWrites, events, 0);
        }
        EveryRunIsSafe(s, events, t);
      }
    }
  }

  // ----- a bucket with versioning

  /** Another write after a commit hides the commit from the replay test. */
  lemma OtherPutHidesCommit(s: State, k: nat, m: nat) returns (o: State)
    requires HasCommitted(s, k, m)
    ensures Step(s, OtherPut(1, [PartData(k + 1)])) == Some(o)
    ensures o.completion == Idle && o.store.overview == Completing && o.store.versioning == Enabled
    ensures o.store.parts == PartsUpTo(k) && o.store.versions.Keys == {0, 1}
    ensures MasterLocation(o.store) == Some([PartData(k + 1)]) && PartData(m) in o.store.versions[0].location
    ensures !MasterIsNull(o.store)
  {
    forall n: nat | 1 <= n <= k
      ensures PartData(n) != PartData(k + 1)
    {
      PartDataDiffers(n, k + 1);
    }
    o := Step(s, OtherPut(1, [PartData(k + 1)])).value;
    assert Dropped(s.store) == {} && s.store.versions - {} == s.store.versions;
  }

  /** So the next attempt commits the same data once more. */
  lemma SecondCommitShares(o: State, list: seq<nat>, k: nat, m: nat)
    requires o.store.versioning == Enabled && o.store.parts == PartsUpTo(k) && o.store.versions.Keys == {0, 1}
    requires MasterLocation(o.store) == Some([PartData(k + 1)]) && PartData(m) in o.store.versions[0].location
    requires !MasterIsNull(o.store)
    requires IsPartList(list, k) && m in list
    ensures !SeparateVersions(AfterAttempt(o, list, 2).store.versions)
  {
    var data := Locate(list, o.store.parts);
    LocateAll(list, PartsUpTo(k), m, PartData(m));
    if PartData(k + 1) in data {
      var n := LocateFrom(list, PartsUpTo(k), PartData(k + 1));
      PartDataDiffers(n, k + 1);
    }
    assert Disjoint([PartData(k + 1)], data);
    assert !IsReplay(MasterLocation(o.store), data);
    assert Dropped(o.store) == {} && o.store.versions - {} == o.store.versions;
    var versions := AfterAttempt(o, list, 2).store.versions;
    assert 0 in versions && 2 in versions && PartData(m) in versions[0].location && PartData(m) in versions[2].location;
  }

  /** The replay test only looks at the current version. For all part lists of at least two attempts,
      with the first list's parts named again by the second: with one other write of the key between
      the two attempts, some run in a bucket with versioning gives two versions the same data. */
  lemma ReplayIsMissedAfterOtherPut(lists: seq<seq<nat>>) returns (events: seq<Event>, t: State)
    requires |lists| >= 2 && Grow(lists) && forall list <- lists :: IsPartList(list, MAX_PART_NUMBER)
    ensures Initial(Uploaded(0)) && Uploaded(0).store.versioning == Enabled == t.store.versioning
    ensures Leads(Uploaded(0), events, lists, t) && OnlyBefore(OtherWrites, events, 1) && !SeparateVersions(t.store.versions)
  {
    assert lists[0] in lists && lists[1] in lists;
    var k, m := MAX_PART_NUMBER, lists[0][0];
    assert m in ToSet(lists[0]) && ToSet(lists[0]) <= ToSet(lists[1]);
    var e0 := UploadGoes(k);
    var e1, a := CommitFirst(lists, 0, k, m);
    GoesFirst(Uploaded(0), e0, Uploaded(k), e1, lists[..1], a);
    var e2;
    e2, t := ReplayIsMissed(Uploaded(0), e0 + e1, a, lists, m);
    events := e0 + e1 + [OtherPut(1, [PartData(k + 1)])] + e2;
  }

  lemma ReplayIsMissed(u: State, e1: seq<Event>, a: State, lists: seq<seq<nat>>, m: nat) returns (e2: seq<Event>, t: State)
    requires |lists| >= 2 && Goes(u, e1, lists[..1], a) && HasCommitted(a, MAX_PART_NUMBER, m)
    requires IsPartList(lists[1], MAX_PART_NUMBER) && m in lists[1]
    ensures var events := e1 + [OtherPut(1, [PartData(MAX_PART_NUMBER + 1)])] + e2;
            Leads(u, events, lists, t) && OnlyBefore(OtherWrites, events, 1)
    ensures t.store.versioning == Enabled && !SeparateVersions(t.store.versions)
  {
    var k := MAX_PART_NUMBER;
    var o := OtherPutHidesCommit(a, k, m);
    e2, t := AttemptAndMore(o, lists[1..], 2);
    SecondCommitShares(o, lists[1], k, m);
    OneOtherLeads(u, e1, lists[..1], a, OtherPut(1, [PartData(k + 1)]), o, e2, lists[1..], t);
    assert lists[..1] + lists[1..] == lists;
  }

  /** One attempt that commits and stops, and more that fail at once. */
  lemma AttemptAndMore(s: State, lists: seq<seq<nat>>, vid: nat) returns (events: seq<Event>, t: State)
    requires lists != [] && s.completion == Idle && s.store.overview != Absent
    requires ValidList(lists[0], s.store.parts) && vid !in s.store.versions
    ensures Goes(s, events, lists, t) && t.store == AfterAttempt(s, lists[0], vid).store
  {
    var attempt := AttemptAfterFailures(s, lists, 0, 0, vid);
    var a := AfterAttempt(s, lists[0], vid);
    t := a.(completion := Idle);
    GoesOne(a, CompleteStop, t);
    var rest := FailedAttempts(t, lists[1..]);
    GoesThen(s, attempt, lists[0..1], a, [CompleteStop], t);
    GoesOn(s, attempt + [CompleteStop], lists[0..1], t, rest, lists[1..], t);
    events := attempt + [CompleteStop] + rest;
    assert lists[0..1] + lists[1..] == lists;
  }
}
