/** Changes of the versioning status during an upload: exactly when they lose no data. The null version
    of an object is copied to the null key ahead of a commit, and the copy stays when the attempt ends
    before its commit, or takes the current object for its own. */
module MpuStatus {
  import opened Wrappers
  import opened Sequences
  import opened Locations
  import opened MpuModel
  import opened MpuInvariant
  import opened MpuSafety

  /** All runs whose attempts name these lists and begin under these statuses; others write the key only
      before the first attempt. */
  ghost predicate AlwaysSafeUnder(lists: seq<seq<nat>>, statuses: seq<Versioning>) {
    forall s, events, t ::
      Initial(s) && Leads(s, events, lists, t) && OnlyBefore(OtherWrites, events, 0)
      && Statuses(s.store.versioning, events) == statuses
      ==> Safe(t.store)
  }

  /** A bucket that has a versioning status keeps having one. */
  predicate Feasible(statuses: seq<Versioning>) {
    forall i, j :: 0 <= i < j < |statuses| && statuses[j] == NotConfigured ==> statuses[i] == NotConfigured
  }

  /** A run from s to t whose attempts name these lists and begin under these statuses; others do not
      write the key. */
  ghost predicate Passes(s: State, events: seq<Event>, lists: seq<seq<nat>>, statuses: seq<Versioning>, t: State) {
    && Leads(s, events, lists, t) && NoneOf(OtherWrites, events)
    && Statuses(s.store.versioning, events) == statuses
  }

  lemma PassesOn(s: State, a: seq<Event>, la: seq<seq<nat>>, sa: seq<Versioning>, m: State,
                 b: seq<Event>, lb: seq<seq<nat>>, sb: seq<Versioning>, t: State)
    requires Passes(s, a, la, sa, m) && Passes(m, b, lb, sb, t)
    ensures Passes(s, a + b, la + lb, sa + sb, t)
  {
    LeadsOn(s, a, la, m, b, lb, t);
    StatusAtEnd(s, a, m);
    StatusesJoin(s.store.versioning, a, b);
  }

  lemma GoesPasses(s: State, events: seq<Event>, lists: seq<seq<nat>>, t: State)
    requires Goes(s, events, lists, t)
    ensures Passes(s, events, lists, seq(|lists|, _ => s.store.versioning), t)
  {
    SameStatus(s.store.versioning, events);
  }

  /** The status is set, unless it is there already. */
  lemma SetStatus(s: State, status: Versioning) returns (events: seq<Event>)
    requires status == NotConfigured ==> s.store.versioning == NotConfigured
    ensures Passes(s, events, [], [], s.(store := s.store.(versioning := status)))
  {
    var t := s.(store := s.store.(versioning := status));
    if status == s.store.versioning {
      events := [];
      assert t == s;
    } else {
      events := [SetVersioning(status)];
      RunPath(events, [s, t]);
      assert events[1..] == [];
      assert Attempts(events) == Attempts([]) && Statuses(s.store.versioning, events) == Statuses(status, []);
    }
  }

  /** The status is set, and then something happens under it. */
  lemma Under(s: State, status: Versioning, b: seq<Event>, list: seq<nat>, t: State) returns (events: seq<Event>)
    requires status == NotConfigured ==> s.store.versioning == NotConfigured
    requires Goes(s.(store := s.store.(versioning := status)), b, [list], t)
    ensures Passes(s, events, [list], [status], t)
  {
    var m := s.(store := s.store.(versioning := status));
    var a := SetStatus(s, status);
    GoesPasses(m, b, [list], t);
    PassesOn(s, a, [], [], m, b, [list], seq(1, _ => status), t);
    events := a + b;
    assert [] + [list] == [list] && [] + seq(1, _ => status) == [status];
  }

  /** Nothing but the status differs. */
  ghost predicate SameButStatus(s: State, t: State) {
    t == s.(store := s.store.(versioning := t.store.versioning))
  }

  /** Attempts that fail right after their first read. */
  lemma {:induction false} FailedUnder(s: State, lists: seq<seq<nat>>, statuses: seq<Versioning>)
    returns (events: seq<Event>, t: State)
    requires |lists| == |statuses| && Feasible(statuses) && s.completion == Idle
    requires s.store.versioning != NotConfigured ==> NotConfigured !in statuses
    ensures Passes(s, events, lists, statuses, t) && SameButStatus(s, t)
    ensures t.store.versioning == if statuses == [] then s.store.versioning else statuses[|statuses| - 1]
    decreases |lists|
  {
    events, t := [], s;
    if lists != [] {
      var k := |lists| - 1;
      var m;
      assert Feasible(statuses[..k]);
      events, m := FailedUnder(s, lists[..k], statuses[..k]);
      t := m.(store := m.store.(versioning := statuses[k]));
      var failed := FailedAttempts(t, [lists[k]]);
      assert statuses[k] in statuses;
      var b := Under(m, statuses[k], failed, lists[k], t);
      PassesOn(s, events, lists[..k], statuses[..k], m, b, [lists[k]], [statuses[k]], t);
      events := events + b;
      assert lists[..k] + [lists[k]] == lists && statuses[..k] + [statuses[k]] == statuses;
    }
  }

  // ----- a copy that outlives its version

  /** All parts are uploaded, and the current object is a null version. */
  ghost predicate HasNullMaster(s: State) {
    && s.completion == Idle && s.store.overview != Absent && s.store.parts == PartsUpTo(MAX_PART_NUMBER)
    && s.store.versions.Keys == {0} && s.store.master == Some(0) && MasterIsNull(s.store)
    && MasterLocation(s.store) == Some(OldData())
  }

  function OldData(): seq<Location> {
    [PartData(MAX_PART_NUMBER + 1)]
  }

  /** Moreover, the null key holds a copy of it. */
  ghost predicate HasCopy(s: State) {
    HasNullMaster(s) && s.store.nullKey == Some(OldData())
  }

  lemma OldDataIsNew(list: seq<nat>)
    requires IsPartList(list, MAX_PART_NUMBER)
    ensures forall n <- list :: n in PartsUpTo(MAX_PART_NUMBER)
    ensures Disjoint(OldData(), Locate(list, PartsUpTo(MAX_PART_NUMBER)))
  {
    var l := PartData(MAX_PART_NUMBER + 1);
    if l in Locate(list, PartsUpTo(MAX_PART_NUMBER)) {
      var n := LocateFrom(list, PartsUpTo(MAX_PART_NUMBER), l);
      PartDataDiffers(n, MAX_PART_NUMBER + 1);
    }
  }

  /** An attempt that begins while versioning is enabled, and fails at its commit. */
  lemma AttemptCopies(s: State, list: seq<nat>) returns (events: seq<Event>, t: State)
    requires HasNullMaster(s) && s.store.versioning == Enabled && IsPartList(list, MAX_PART_NUMBER)
    ensures Goes(s, events, [list], t) && HasCopy(t)
  {
    t := AfterPrepare(s, list).(completion := Idle);
    events := ListingGoes(s, list);
    CopyIsMade(s, list);
    GoesOne(AfterListing(s, list), CompletePrepare, AfterPrepare(s, list));
    GoesOne(AfterPrepare(s, list), CompleteStop, t);
    GoesThen(s, events, [list], AfterListing(s, list), [CompletePrepare], AfterPrepare(s, list));
    GoesThen(s, events + [CompletePrepare], [list], AfterPrepare(s, list), [CompleteStop], t);
    events := events + [CompletePrepare] + [CompleteStop];
  }

  lemma ListingGoes(s: State, list: seq<nat>) returns (events: seq<Event>)
    requires s.completion == Idle && s.store.overview != Absent
    ensures Goes(s, events, [list], AfterListing(s, list))
  {
    events := AttemptEvents(list, 0)[..4];
    ListingRuns(s, list);
    NoAttempts(events[1..]);
  }

  lemma CopyIsMade(s: State, list: seq<nat>)
    requires HasNullMaster(s) && s.store.versioning == Enabled && IsPartList(list, MAX_PART_NUMBER)
    ensures Step(AfterListing(s, list), CompletePrepare) == Some(AfterPrepare(s, list))
    ensures HasCopy(AfterPrepare(s, list).(completion := Idle))
  {
    OldDataIsNew(list);
    AttemptCommits(s, list, 1);
  }

  /** An attempt that begins while versioning is suspended replaces the null version, and its cleanup
      deletes data that the copy refers to. */
  lemma AttemptDeletesCopied(s: State, list: seq<nat>) returns (events: seq<Event>, t: State)
    requires HasCopy(s) && s.store.versioning == Suspended && IsPartList(list, MAX_PART_NUMBER)
    ensures Goes(s, events, [list], t) && t.completion == Idle && !Safe(t.store)
  {
    CopyIsLeft(s, list);
    var attempt := AttemptAfterFailures(s, [list], 0, 0, 1);
    assert [list][0..1] == [list];
    var a := AfterAttempt(s, list, 1);
    var rest;
    rest, t := CopiedIsDeleted(a);
    GoesThen(s, attempt, [list], a, rest, t);
    events := attempt + rest;
  }

  /** After the commit, the copied data is about to be deleted. */
  ghost predicate DeletesCopied(a: State) {
    && a.completion.Cleanup? && PartData(MAX_PART_NUMBER + 1) in a.completion.replaced
    && a.store.nullKey == Some(OldData())
  }

  lemma CopyIsLeft(s: State, list: seq<nat>)
    requires HasCopy(s) && s.store.versioning == Suspended && IsPartList(list, MAX_PART_NUMBER)
    ensures ValidList(list, s.store.parts) && DeletesCopied(AfterAttempt(s, list, 1))
  {
    OldDataIsNew(list);
  }

  lemma CopiedIsDeleted(a: State) returns (events: seq<Event>, t: State)
    requires DeletesCopied(a)
    ensures Goes(a, events, [], t) && t.completion == Idle && !Safe(t.store)
  {
    var l := PartData(MAX_PART_NUMBER + 1);
    var b := Step(a, CompleteDeleteReplaced(l)).value;
    t := b.(completion := Idle);
    GoesOne(a, CompleteDeleteReplaced(l), b);
    GoesOne(b, CompleteStop, t);
    GoesThen(a, [CompleteDeleteReplaced(l)], [], b, [CompleteStop], t);
    events := [CompleteDeleteReplaced(l)] + [CompleteStop];
    assert InNullKey(t.store, l) && l in t.store.deleted;
  }

  // ----- the exact condition

  /** Before the first attempt, all parts are uploaded, and another request has written the key. */
  lemma NullMasterRuns(status: Versioning) returns (events: seq<Event>, t: State)
    requires status != Enabled
    ensures Initial(Uploaded(0, status)) && Leads(Uploaded(0, status), events, [], t) && HasNullMaster(t)
    ensures t.store.versioning == status && forall e <- events :: !e.SetVersioning?
  {
    var u := Uploaded(MAX_PART_NUMBER, status);
    var other := OtherPut(0, OldData());
    t := OtherPutIsNull(u, status);
    events := UploadGoes(MAX_PART_NUMBER, status);
    RunPath([other], [u, t]);
    assert Attempts([other]) == Attempts([other][1..]) == [];
    LeadsOn(Uploaded(0, status), events, [], u, [other], [], t);
    events := events + [other];
  }

  lemma OtherPutIsNull(u: State, status: Versioning) returns (t: State)
    requires status != Enabled && u == Uploaded(MAX_PART_NUMBER, status)
    ensures Step(u, OtherPut(0, OldData())) == Some(t) && HasNullMaster(t) && t.store.versioning == status
  {
    forall n: nat | 1 <= n <= MAX_PART_NUMBER
      ensures PartData(n) != PartData(MAX_PART_NUMBER + 1)
    {
      PartDataDiffers(n, MAX_PART_NUMBER + 1);
    }
    t := Step(u, OtherPut(0, OldData())).value;
  }

  /** One more attempt. */
  lemma PassesNext(s: State, a: seq<Event>, lists: seq<seq<nat>>, statuses: seq<Versioning>, k: nat, m: State,
                   b: seq<Event>, t: State)
    requires k < |lists| == |statuses| && Passes(s, a, lists[..k], statuses[..k], m)
    requires Passes(m, b, [lists[k]], [statuses[k]], t)
    ensures Passes(s, a + b, lists[..k + 1], statuses[..k + 1], t)
  {
    PassesOn(s, a, lists[..k], statuses[..k], m, b, [lists[k]], [statuses[k]], t);
    assert lists[..k] + [lists[k]] == lists[..k + 1] && statuses[..k] + [statuses[k]] == statuses[..k + 1];
  }

  /** All the attempts that are left. */
  lemma PassesRest(s: State, a: seq<Event>, lists: seq<seq<nat>>, statuses: seq<Versioning>, k: nat, m: State,
                   b: seq<Event>, t: State)
    requires k <= |lists| == |statuses| && Passes(s, a, lists[..k], statuses[..k], m)
    requires Passes(m, b, lists[k..], statuses[k..], t)
    ensures Passes(s, a + b, lists, statuses, t)
  {
    PassesOn(s, a, lists[..k], statuses[..k], m, b, lists[k..], statuses[k..], t);
    assert lists[..k] + lists[k..] == lists && statuses[..k] + statuses[k..] == statuses;
  }

  lemma UpToCopy(s: State, lists: seq<seq<nat>>, statuses: seq<Versioning>, a: nat) returns (events: seq<Event>, t: State)
    requires HasNullMaster(s) && a < |lists| == |statuses| && Feasible(statuses)
    requires statuses[a] == Enabled && IsPartList(lists[a], MAX_PART_NUMBER)
    requires s.store.versioning != NotConfigured ==> NotConfigured !in statuses
    ensures Passes(s, events, lists[..a + 1], statuses[..a + 1], t) && HasCopy(t) && t.store.versioning == Enabled
  {
    var m, b;
    events, m := FailedUnder(s, lists[..a], statuses[..a]);
    b, t := CopyUnder(m, lists[a]);
    PassesNext(s, events, lists, statuses, a, m, b, t);
    events := events + b;
  }

  lemma UpToDeletion(s: State, lists: seq<seq<nat>>, statuses: seq<Versioning>, b: nat) returns (events: seq<Event>, t: State)
    requires HasCopy(s) && b < |lists| == |statuses| && NotConfigured !in statuses
    requires statuses[b] == Suspended && IsPartList(lists[b], MAX_PART_NUMBER)
    ensures Passes(s, events, lists, statuses, t) && !Safe(t.store)
  {
    var m1, m2, e2, e3;
    events, m1 := FailedUnder(s, lists[..b], statuses[..b]);
    e2, m2 := DeleteUnder(m1, lists[b]);
    PassesNext(s, events, lists, statuses, b, m1, e2, m2);
    e3, t := FailedUnder(m2, lists[b + 1..], statuses[b + 1..]);
    StatusIsNoMatter(m2.store, t.store);
    PassesRest(s, events + e2, lists, statuses, b + 1, m2, e3, t);
    events := events + e2 + e3;
  }

  lemma StatusIsNoMatter(a: Store, b: Store)
    requires b == a.(versioning := b.versioning) && !Safe(a)
    ensures !Safe(b)
  {
    assert Safe(b) ==> forall l :: InNullKey(a, l) ==> InNullKey(b, l);
  }

  /** Between the two attempts, and after them, nothing but failures. */
  lemma SuspensionRuns(s: State, lists: seq<seq<nat>>, statuses: seq<Versioning>, a: nat, b: nat)
    returns (events: seq<Event>, t: State)
    requires HasNullMaster(s) && |lists| == |statuses| && Feasible(statuses)
    requires forall list <- lists :: IsPartList(list, MAX_PART_NUMBER)
    requires a < b < |lists| && statuses[a] == Enabled && statuses[b] == Suspended
    requires s.store.versioning != NotConfigured ==> NotConfigured !in statuses
    ensures Passes(s, events, lists, statuses, t) && !Safe(t.store)
  {
    assert lists[a] in lists && lists[b] in lists;
    var m, rest;
    events, m := UpToCopy(s, lists, statuses, a);
    rest, t := UpToDeletion(m, lists[a + 1..], statuses[a + 1..], b - a - 1);
    PassesRest(s, events, lists, statuses, a + 1, m, rest, t);
    events := events + rest;
  }

  lemma CopyUnder(s: State, list: seq<nat>) returns (events: seq<Event>, t: State)
    requires HasNullMaster(s) && IsPartList(list, MAX_PART_NUMBER)
    ensures Passes(s, events, [list], [Enabled], t) && HasCopy(t) && t.store.versioning == Enabled
  {
    var m := s.(store := s.store.(versioning := Enabled));
    events, t := AttemptCopies(m, list);
    SameStatus(Enabled, events);
    StatusAtEnd(m, events, t);
    events := Under(s, Enabled, events, list, t);
  }

  lemma DeleteUnder(s: State, list: seq<nat>) returns (events: seq<Event>, t: State)
    requires HasCopy(s) && IsPartList(list, MAX_PART_NUMBER)
    ensures Passes(s, events, [list], [Suspended], t) && t.completion == Idle && !Safe(t.store)
    ensures t.store.versioning == Suspended
  {
    var m := s.(store := s.store.(versioning := Suspended));
    events, t := AttemptDeletesCopied(m, list);
    SameStatus(Suspended, events);
    StatusAtEnd(m, events, t);
    events := Under(s, Suspended, events, list, t);
  }

  lemma SuspensionLosesData(lists: seq<seq<nat>>, statuses: seq<Versioning>, a: nat, b: nat)
    requires |lists| == |statuses| && Feasible(statuses)
    requires forall list <- lists :: IsPartList(list, MAX_PART_NUMBER)
    requires a < b < |lists| && statuses[a] == Enabled && statuses[b] == Suspended
    ensures !AlwaysSafeUnder(lists, statuses)
  {
    var first := if statuses[0] == NotConfigured then NotConfigured else Suspended;
    var e0, s := NullMasterRuns(first);
    var events, t := SuspensionRuns(s, lists, statuses, a, b);
    AfterOtherPut(Uploaded(0, first), e0, s, events, lists, statuses, t);
  }

  lemma AfterOtherPut(u: State, a: seq<Event>, m: State, b: seq<Event>, lists: seq<seq<nat>>, statuses: seq<Versioning>, t: State)
    requires Initial(u) && Leads(u, a, [], m) && Passes(m, b, lists, statuses, t) && !Safe(t.store)
    requires m.store.versioning == u.store.versioning && forall e <- a :: !e.SetVersioning?
    ensures !AlwaysSafeUnder(lists, statuses)
  {
    LeadsOn(u, a, [], m, b, lists, t);
    assert [] + lists == lists && [] + statuses == statuses;
    SameStatus(u.store.versioning, a);
    StatusesJoin(u.store.versioning, a, b);
    BeforeAttempts(OtherWrites, a, 0);
    NoneIsBefore(OtherWrites, b, 0);
    OnlyBeforeJoins(OtherWrites, a, b, 0);
  }

  /** For all growing part lists, and all versioning statuses that their attempts can begin under: all
      runs, with others writing the key only before the first attempt, are safe if and only if no
      attempt begins while versioning is suspended after one that began while it was enabled. */
  lemma StatusesExactly(lists: seq<seq<nat>>, statuses: seq<Versioning>)
    requires |lists| == |statuses| && Feasible(statuses)
    requires Grow(lists) && forall list <- lists :: IsPartList(list, MAX_PART_NUMBER)
    ensures AlwaysSafeUnder(lists, statuses) <==> NotSuspendedAgain(statuses)
  {
    if !NotSuspendedAgain(statuses) {
      var a, b :| 0 <= a < b < |statuses| && statuses[a] == Enabled && statuses[b] == Suspended;
      SuspensionLosesData(lists, statuses, a, b);
    } else {
      forall s, events, t |
        Initial(s) && Leads(s, events, lists, t) && OnlyBefore(OtherWrites, events, 0)
        && Statuses(s.store.versioning, events) == statuses
        ensures Safe(t.store)
      {
        EveryRunIsSafe(s, events, t);
      }
    }
  }
}
