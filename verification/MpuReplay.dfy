/** What a successful completion leaves: the exact condition under which the current object is what
    the completion listed. A completion that finds data of its list in the current object takes that
    object for its own earlier commit, and leaves it as it is. */
module MpuReplay {
  import opened Wrappers
  import opened Sequences
  import opened Locations
  import opened MpuModel
  import opened MpuInvariant
  import opened MpuSafety
  import opened MpuConservation

  /** A completion that has listed its parts, and what its commit leaves. */
  ghost predicate LeavesListed(m: State, t: State) {
    m.completion.Prepared? && ValidList(m.completion.list, m.completion.snapshot) ==>
      MasterLocation(t.store) == Some(Locate(m.completion.list, m.completion.snapshot))
  }

  /** After each run whose attempts name these lists, the commit of the last attempt leaves the
      object that it listed. Parts are stored only before attempt i, and others write the key only
      before attempt j. */
  ghost predicate AlwaysListed(lists: seq<seq<nat>>, i: nat, j: nat) {
    forall s, events, m, vid, t ::
      Initial(s) && Leads(s, events, lists, m) && OnlyBefore(PartStores, events, i) && OnlyBefore(OtherWrites, events, j)
      && Step(m, CompleteCommit(vid)) == Some(t)
      ==> LeavesListed(m, t)
  }

  /** The last attempt and an earlier one have no part in common, or they name the same parts and
      nothing can have changed in between. */
  ghost predicate NothingBetween(lists: seq<seq<nat>>, a: nat, i: nat, j: nat)
    requires a < |lists|
  {
    var last := lists[|lists| - 1];
    ToSet(lists[a]) !! ToSet(last) || (lists[a] == last && j < |lists| && (i <= a || |last| == 1))
  }

  ghost predicate ReplaysAgree(lists: seq<seq<nat>>, i: nat, j: nat) {
    forall a: nat :: a + 1 < |lists| ==> NothingBetween(lists, a, i, j)
  }

  // ----- what a run remembers

  /** The commit of an attempt, and the parts that it had listed. */
  datatype Past = Past(attempt: nat, parts: map<nat, seq<Location>>)

  /** How many attempts have begun, all data written for parts, the commit that the current object
      comes from, and the one that the object read by the completion comes from. */
  datatype Memory = Memory(begun: nat, written: set<PartUpload>, past: Option<Past>, seen: Option<Past>)

  predicate Within(a: map<nat, seq<Location>>, b: map<nat, seq<Location>>) {
    forall n :: n in a ==> n in b && a[n] == b[n]
  }

  /** No two uploads were given the same location. */
  ghost predicate Apart(written: set<PartUpload>, issued: set<Location>) {
    && (forall x, l :: x in written && l in x.data ==> l in issued)
    && (forall x, y, l :: x in written && y in written && l in x.data && l in y.data ==> x == y)
  }

  ghost predicate AreOf(parts: map<nat, seq<Location>>, written: set<PartUpload>) {
    forall n :: n in parts ==> PartUpload(n, parts[n]) in written
  }

  ghost predicate PartsAreWritten(s: State, written: set<PartUpload>) {
    && AreOf(s.store.parts, written)
    && (forall p :: p in s.puts && (s.puts[p].Copied? || s.puts[p].Ready?) ==>
          PartUpload(s.puts[p].n, s.puts[p].data) in written)
    && (HasListed(s.completion) ==> AreOf(s.completion.snapshot, written))
  }

  /** An object is older than the upload, written by others, or what an attempt has committed. */
  ghost predicate ComesFrom(obj: Option<seq<Location>>, past: Option<Past>, lists: seq<seq<nat>>,
                            written: set<PartUpload>, issued: set<Location>) {
    match past
    case None =>
      obj.Some? ==> forall l <- obj.value :: l in issued && forall x <- written :: l !in x.data
    case Some(p) =>
      && p.attempt < |lists| && (forall n <- lists[p.attempt] :: n in p.parts) && AreOf(p.parts, written)
      && obj == Some(Locate(lists[p.attempt], p.parts))
  }

  ghost predicate InTime(c: Completion, lists: seq<seq<nat>>, m: Memory) {
    && m.begun <= |lists|
    && (m.past.Some? ==> m.past.value.attempt < m.begun)
    && (Active(c) ==> m.begun > 0 && c.list == lists[m.begun - 1])
    && (Active(c) && m.past.Some? ==> m.past.value.attempt < m.begun - 1)
    && (Active(c) && m.seen.Some? ==> m.seen.value.attempt < m.begun - 1)
  }

  /** Once no more parts are stored, listed parts stay as they were listed. */
  ghost predicate PartsStand(s: State, m: Memory, i: nat) {
    && (HasListed(s.completion) && m.begun > i ==> Within(s.store.parts, s.completion.snapshot))
    && (m.past.Some? && m.past.value.attempt >= i ==>
          && Within(s.store.parts, m.past.value.parts)
          && (HasListed(s.completion) ==> Within(s.completion.snapshot, m.past.value.parts)))
  }

  /** Once others do not write the key, the completion knows the current object. */
  ghost predicate ObjectStands(s: State, m: Memory, j: nat) {
    m.begun > j && Active(s.completion) ==> m.seen == m.past && s.completion.objMD == MasterLocation(s.store)
  }

  ghost predicate ObjectsAreExplained(s: State, lists: seq<seq<nat>>, m: Memory) {
    && ComesFrom(MasterLocation(s.store), m.past, lists, m.written, s.store.issued)
    && (Active(s.completion) ==> ComesFrom(s.completion.objMD, m.seen, lists, m.written, s.store.issued))
  }

  ghost predicate Remembers(s: State, lists: seq<seq<nat>>, m: Memory, i: nat, j: nat) {
    && Apart(m.written, s.store.issued) && PartsAreWritten(s, m.written)
    && ObjectsAreExplained(s, lists, m)
    && InTime(s.completion, lists, m) && PartsStand(s, m, i) && ObjectStands(s, m, j)
  }

  // ----- one event

  /** The commit is a new one. */
  ghost predicate IsNewCommit(s: State, e: Event) {
    && e.CompleteCommit? && s.completion.Prepared? && ValidList(s.completion.list, s.completion.snapshot)
    && !IsReplay(s.completion.objMD, Locate(s.completion.list, s.completion.snapshot))
  }

  ghost function After(s: State, e: Event, m: Memory): Memory {
    match e
    case PutWriteData(pid, data) =>
      if pid in s.puts && (s.puts[pid].Begun? || s.puts[pid].SawPart?)
      then m.(written := m.written + {PartUpload(s.puts[pid].n, data)}) else m
    case CompleteReadObject(_) => m.(begun := m.begun + 1, seen := m.past)
    case CompleteCommit(_) =>
      if IsNewCommit(s, e) && m.begun > 0 then m.(past := Some(Past(m.begun - 1, s.completion.snapshot))) else m
    case OtherPut(_, _) => m.(past := None)
    case _ => m
  }

  lemma IssuedGrows(s: State, e: Event, t: State)
    requires Step(s, e) == Some(t)
    ensures s.store.issued <= t.store.issued
    ensures e.PutWriteData? ==> ToSet(e.data) <= t.store.issued && IsFresh(s.store, e.data)
  {
  }

  lemma WrittenAfter(s: State, e: Event, t: State, m: Memory)
    requires Step(s, e) == Some(t) && Apart(m.written, s.store.issued)
    ensures Apart(After(s, e, m).written, t.store.issued)
    ensures m.written <= After(s, e, m).written && s.store.issued <= t.store.issued
    ensures forall x, l :: x in After(s, e, m).written && x !in m.written && l in x.data ==> l !in s.store.issued
  {
    IssuedGrows(s, e, t);
  }

  /** Put-part requests write data, and publish what they have written. */
  lemma PutPartsAfter(s: State, e: Event, t: State, m: Memory)
    requires IsPutStep(e) && Step(s, e) == Some(t) && PartsAreWritten(s, m.written)
    ensures PartsAreWritten(t, After(s, e, m).written)
  {
    if e.PutStorePart? {
      StorePartsAfter(s, e, t, m);
    }
  }

  lemma StorePartsAfter(s: State, e: Event, t: State, m: Memory)
    requires e.PutStorePart? && Step(s, e) == Some(t) && PartsAreWritten(s, m.written)
    ensures PartsAreWritten(t, m.written)
  {
  }

  lemma PartsAfter(s: State, e: Event, t: State, m: Memory)
    requires Step(s, e) == Some(t) && PartsAreWritten(s, m.written)
    ensures PartsAreWritten(t, After(s, e, m).written)
  {
    if IsPutStep(e) {
      PutPartsAfter(s, e, t, m);
    }
  }

  lemma ComesFromStill(obj: Option<seq<Location>>, past: Option<Past>, lists: seq<seq<nat>>,
                       written: set<PartUpload>, issued: set<Location>, written': set<PartUpload>, issued': set<Location>)
    requires ComesFrom(obj, past, lists, written, issued) && written <= written' && issued <= issued'
    requires forall x, l :: x in written' && x !in written && l in x.data ==> l !in issued
    ensures ComesFrom(obj, past, lists, written', issued')
  {
  }

  /** The events that write the key. */
  lemma MasterStays(s: State, e: Event, t: State)
    requires Step(s, e) == Some(t) && !e.OtherPut? && !IsNewCommit(s, e)
    ensures MasterLocation(t.store) == MasterLocation(s.store)
  {
  }

  lemma MasterComesFrom(s: State, e: Event, t: State, lists: seq<seq<nat>>, m: Memory)
    requires Step(s, e) == Some(t) && Apart(m.written, s.store.issued) && PartsAreWritten(s, m.written)
    requires ObjectsAreExplained(s, lists, m) && InTime(s.completion, lists, m)
    ensures ComesFrom(MasterLocation(t.store), After(s, e, m).past, lists, After(s, e, m).written, t.store.issued)
  {
    WrittenAfter(s, e, t, m);
    if !e.OtherPut? && !IsNewCommit(s, e) {
      MasterStays(s, e, t);
      ComesFromStill(MasterLocation(s.store), m.past, lists, m.written, s.store.issued,
                     After(s, e, m).written, t.store.issued);
    }
  }

  lemma SeenStays(s: State, e: Event, t: State, m: Memory)
    requires Step(s, e) == Some(t) && Active(t.completion)
    ensures if e.CompleteReadObject?
            then After(s, e, m).seen == m.past && t.completion.objMD == MasterLocation(s.store)
            else Active(s.completion) && After(s, e, m).seen == m.seen && t.completion.objMD == s.completion.objMD
  {
  }

  lemma ObjectsAfter(s: State, e: Event, t: State, lists: seq<seq<nat>>, m: Memory)
    requires Step(s, e) == Some(t) && Apart(m.written, s.store.issued) && PartsAreWritten(s, m.written)
    requires ObjectsAreExplained(s, lists, m) && InTime(s.completion, lists, m)
    ensures ObjectsAreExplained(t, lists, After(s, e, m))
  {
    MasterComesFrom(s, e, t, lists, m);
    WrittenAfter(s, e, t, m);
    if Active(t.completion) {
      SeenStays(s, e, t, m);
      ComesFromStill(t.completion.objMD, After(s, e, m).seen, lists, m.written, s.store.issued,
                     After(s, e, m).written, t.store.issued);
    }
  }

  lemma InTimeAfter(s: State, e: Event, t: State, lists: seq<seq<nat>>, m: Memory)
    requires Step(s, e) == Some(t) && InTime(s.completion, lists, m)
    requires e.CompleteReadObject? ==> m.begun < |lists| && e.parts == lists[m.begun]
    ensures InTime(t.completion, lists, After(s, e, m))
  {
  }

  lemma PutPartsStand(s: State, e: Event, t: State, lists: seq<seq<nat>>, m: Memory, i: nat)
    requires IsPutStep(e) && Step(s, e) == Some(t) && InTime(s.completion, lists, m) && PartsStand(s, m, i)
    requires e.PutStorePart? ==> m.begun <= i
    ensures PartsStand(t, After(s, e, m), i)
  {
    if !e.PutStorePart? {
      assert t.store.parts == s.store.parts;
    }
  }

  lemma PartsStandAfter(s: State, e: Event, t: State, lists: seq<seq<nat>>, m: Memory, i: nat)
    requires Step(s, e) == Some(t) && InTime(s.completion, lists, m) && PartsStand(s, m, i)
    requires e.PutStorePart? ==> m.begun <= i
    ensures PartsStand(t, After(s, e, m), i)
  {
    if IsPutStep(e) {
      PutPartsStand(s, e, t, lists, m, i);
    }
  }

  lemma ObjectStandsAfter(s: State, e: Event, t: State, m: Memory, j: nat)
    requires Step(s, e) == Some(t) && ObjectStands(s, m, j)
    requires e.OtherPut? ==> m.begun <= j
    ensures ObjectStands(t, After(s, e, m), j)
  {
    if Active(t.completion) {
      SeenStays(s, e, t, m);
      if !e.OtherPut? && !IsNewCommit(s, e) {
        MasterStays(s, e, t);
      }
    }
  }

  lemma StepRemembers(s: State, e: Event, t: State, lists: seq<seq<nat>>, m: Memory, i: nat, j: nat)
    requires Step(s, e) == Some(t) && Remembers(s, lists, m, i, j)
    requires e.CompleteReadObject? ==> m.begun < |lists| && e.parts == lists[m.begun]
    requires (e.PutStorePart? ==> m.begun <= i) && (e.OtherPut? ==> m.begun <= j)
    ensures Remembers(t, lists, After(s, e, m), i, j)
  {
    WrittenAfter(s, e, t, m);
    PartsAfter(s, e, t, m);
    ObjectsAfter(s, e, t, lists, m);
    InTimeAfter(s, e, t, lists, m);
    PartsStandAfter(s, e, t, lists, m, i);
    ObjectStandsAfter(s, e, t, m, j);
  }

  // ----- all runs

  lemma NextAttempt(events: seq<Event>, lists: seq<seq<nat>>, begun: nat)
    requires events != [] && begun <= |lists| && Attempts(events) == lists[begun..]
    ensures if events[0].CompleteReadObject?
            then begun < |lists| && events[0].parts == lists[begun] && Attempts(events[1..]) == lists[begun + 1..]
            else Attempts(events[1..]) == lists[begun..]
  {
    if events[0].CompleteReadObject? {
      assert Attempts(events) == [events[0].parts] + Attempts(events[1..]);
      assert lists[begun..][0] == events[0].parts && lists[begun..][1..] == lists[begun + 1..];
      assert Attempts(events)[1..] == Attempts(events[1..]);
    } else {
      assert Attempts(events) == Attempts(events[1..]);
    }
  }

  /** The events that are left, when this many attempts have begun. */
  ghost predicate Ahead(events: seq<Event>, lists: seq<seq<nat>>, begun: nat, i: nat, j: nat) {
    && begun <= |lists| && Attempts(events) == lists[begun..]
    && OnlyBefore(PartStores, events, i - begun) && OnlyBefore(OtherWrites, events, j - begun)
  }

  lemma NextAhead(events: seq<Event>, lists: seq<seq<nat>>, begun: nat, i: nat, j: nat)
    requires events != [] && Ahead(events, lists, begun, i, j)
    ensures var e := events[0];
            && (e.CompleteReadObject? ==> begun < |lists| && e.parts == lists[begun])
            && (e.PutStorePart? ==> begun <= i) && (e.OtherPut? ==> begun <= j)
            && Ahead(events[1..], lists, if e.CompleteReadObject? then begun + 1 else begun, i, j)
  {
    NextAttempt(events, lists, begun);
  }

  lemma BegunAfter(s: State, e: Event, m: Memory)
    ensures After(s, e, m).begun == if e.CompleteReadObject? then m.begun + 1 else m.begun
  {
  }

  lemma {:induction false} RunRemembers(s: State, events: seq<Event>, t: State, lists: seq<seq<nat>>, m: Memory, i: nat, j: nat)
    returns (m': Memory)
    requires Run(s, events) == Some(t) && Remembers(s, lists, m, i, j) && Ahead(events, lists, m.begun, i, j)
    ensures Remembers(t, lists, m', i, j) && m'.begun == |lists|
    decreases |events|
  {
    m' := m;
    if events != [] {
      var next := Step(s, events[0]).value;
      NextAhead(events, lists, m.begun, i, j);
      BegunAfter(s, events[0], m);
      StepRemembers(s, events[0], next, lists, m, i, j);
      m' := RunRemembers(next, events[1..], t, lists, After(s, events[0], m), i, j);
    }
  }

  lemma {:induction false} SamePartsSameData(list: seq<nat>, a: map<nat, seq<Location>>, b: map<nat, seq<Location>>, n: nat)
    requires forall n <- list :: n in a && n in b
    requires n in list && a[n] == b[n] && (Within(a, b) || |list| == 1)
    ensures Locate(list, a) == Locate(list, b)
  {
    if Within(a, b) {
      LocateDepends(list, a, b);
    } else {
      assert list == [n];
    }
  }

  /** The object that the completion takes for its own commit is what it listed. */
  lemma ReplayIsListed(m: State, lists: seq<seq<nat>>, memory: Memory, i: nat, j: nat)
    requires Remembers(m, lists, memory, i, j) && memory.begun == |lists| && ReplaysAgree(lists, i, j)
    requires m.completion.Prepared? && ValidList(m.completion.list, m.completion.snapshot)
    requires IsReplay(m.completion.objMD, Locate(m.completion.list, m.completion.snapshot))
    ensures MasterLocation(m.store) == Some(Locate(m.completion.list, m.completion.snapshot))
  {
    var c := m.completion;
    var l :| l in c.objMD.value && l in Locate(c.list, c.snapshot);
    var n := LocateFrom(c.list, c.snapshot, l);
    assert PartUpload(n, c.snapshot[n]) in memory.written;
    assert memory.seen.Some?;
    var a, parts := memory.seen.value.attempt, memory.seen.value.parts;
    var n' := LocateFrom(lists[a], parts, l);
    assert PartUpload(n', parts[n']) in memory.written;
    assert n' == n && parts[n] == c.snapshot[n];
    assert NothingBetween(lists, a, i, j);
    assert n in ToSet(lists[a]) && n in ToSet(c.list);
    SamePartsSameData(c.list, c.snapshot, parts, n);
  }

  lemma CommitLeavesListed(m: State, vid: nat, t: State, lists: seq<seq<nat>>, memory: Memory, i: nat, j: nat)
    requires Remembers(m, lists, memory, i, j) && memory.begun == |lists| && ReplaysAgree(lists, i, j)
    requires Step(m, CompleteCommit(vid)) == Some(t)
    ensures LeavesListed(m, t)
  {
    if IsReplay(m.completion.objMD, Locate(m.completion.list, m.completion.snapshot)) {
      ReplayIsListed(m, lists, memory, i, j);
    }
  }

  lemma RunLeavesListed(s: State, events: seq<Event>, m: State, vid: nat, t: State, i: nat, j: nat)
    requires Initial(s) && Run(s, events) == Some(m) && Step(m, CompleteCommit(vid)) == Some(t)
    requires OnlyBefore(PartStores, events, i) && OnlyBefore(OtherWrites, events, j)
    requires ReplaysAgree(Attempts(events), i, j)
    ensures LeavesListed(m, t)
  {
    var lists := Attempts(events);
    assert lists[0..] == lists;
    var memory := RunRemembers(s, events, m, lists, Memory(0, {}, None, None), i, j);
    CommitLeavesListed(m, vid, t, lists, memory, i, j);
  }

  // ----- runs in which the replay test takes another object for the listed one

  /** A run that stores parts only before attempt i, and in which others write only before attempt j. */
  ghost predicate Can(s: State, events: seq<Event>, lists: seq<seq<nat>>, t: State, i: int, j: int) {
    Leads(s, events, lists, t) && OnlyBefore(PartStores, events, i) && OnlyBefore(OtherWrites, events, j)
  }

  lemma GoesCan(s: State, events: seq<Event>, lists: seq<seq<nat>>, t: State, i: int, j: int)
    requires Goes(s, events, lists, t) && NoneOf(PartStores, events)
    ensures Can(s, events, lists, t, i, j)
  {
    NoneIsBefore(PartStores, events, i);
    AloneIsBefore(events, j);
  }

  lemma CanJoin(s: State, a: seq<Event>, la: seq<seq<nat>>, m: State, b: seq<Event>, lb: seq<seq<nat>>, t: State, i: int, j: int)
    requires Can(s, a, la, m, i, j) && Can(m, b, lb, t, i - |la|, j - |la|)
    ensures Can(s, a + b, la + lb, t, i, j)
  {
    LeadsOn(s, a, la, m, b, lb, t);
    OnlyBeforeJoins(PartStores, a, b, i);
    OnlyBeforeJoins(OtherWrites, a, b, j);
  }

  /** The second stretch has no attempt. */
  lemma CanThen(s: State, a: seq<Event>, la: seq<seq<nat>>, m: State, b: seq<Event>, t: State, i: int, j: int)
    requires Can(s, a, la, m, i, j) && Can(m, b, [], t, i - |la|, j - |la|)
    ensures Can(s, a + b, la, t, i, j)
  {
    CanJoin(s, a, la, m, b, [], t, i, j);
    assert la + [] == la;
  }

  lemma CanOne(s: State, e: Event, t: State, i: int, j: int)
    requires Step(s, e) == Some(t) && (e.PutStorePart? ==> i >= 0) && (e.OtherPut? ==> j >= 0)
    ensures Can(s, [e], if e.CompleteReadObject? then [e.parts] else [], t, i, j)
  {
    RunPath([e], [s, t]);
    assert [e][1..] == [];
    assert Attempts([e]) == (if e.CompleteReadObject? then [e.parts] else []) + Attempts([]);
    assert OnlyBefore(PartStores, [e][1..], Remaining(e, i)) && OnlyBefore(OtherWrites, [e][1..], Remaining(e, j));
  }

  /** Attempt a commits the parts as they were uploaded, and stops before its cleanup. */
  lemma CommitCan(lists: seq<seq<nat>>, a: nat, i: nat, j: nat) returns (events: seq<Event>, s: State)
    requires a < |lists| && IsPartList(lists[a], MAX_PART_NUMBER)
    ensures Can(Uploaded(0), events, lists[..a + 1], s, i, j)
    ensures HasCommitted(s, MAX_PART_NUMBER, lists[a][0]) && MAX_PART_NUMBER + 1 !in s.puts
    ensures forall n <- lists[a] :: n in PartsUpTo(MAX_PART_NUMBER)
    ensures MasterLocation(s.store) == Some(Locate(lists[a], PartsUpTo(MAX_PART_NUMBER)))
  {
    var k := MAX_PART_NUMBER;
    var e0 := UploadGoes(k);
    BeforeAttempts(PartStores, e0, i);
    BeforeAttempts(OtherWrites, e0, j);
    var e1;
    e1, s := CommitFirst(lists, a, k, lists[a][0]);
    GoesCan(Uploaded(k), e1, lists[..a + 1], s, i, j);
    CanJoin(Uploaded(0), e0, [], Uploaded(k), e1, lists[..a + 1], s, i, j);
    events := e0 + e1;
    assert [] + lists[..a + 1] == lists[..a + 1];
  }

  ghost function Reading(s: State, list: seq<nat>): State {
    s.(completion := SawObject(list, MasterLocation(s.store), ProcessVersioningState(s.store)))
  }

  /** An attempt that is about to commit, and has read the current object in state o. */
  ghost function Committing(o: State): State
    requires o.completion.SawObject?
  {
    var c := o.completion;
    o.(store := Prepare(o.store.(overview := Completing), c.objMD, c.plan),
       completion := Prepared(c.list, c.objMD, c.plan, o.store.parts, DataToDelete(o.store.nullKey, c.objMD, c.plan)))
  }

  lemma MarkingCan(o: State, i: int, j: int) returns (events: seq<Event>, b: State)
    requires o.completion.SawObject? && o.store.overview != Absent
    ensures var c := o.completion;
            b == o.(store := o.store.(overview := Completing), completion := Marked(c.list, c.objMD, c.plan))
    ensures Can(o, events, [], b, i, j)
  {
    var c := o.completion;
    var a := o.(completion := SawOverview(c.list, c.objMD, c.plan));
    b := a.(store := o.store.(overview := Completing), completion := Marked(c.list, c.objMD, c.plan));
    CanOne(o, CompleteReadOverview, a, i, j);
    CanOne(a, CompleteMark, b, i, j);
    CanJoin(o, [CompleteReadOverview], [], a, [CompleteMark], [], b, i, j);
    events := [CompleteReadOverview] + [CompleteMark];
  }

  /** An attempt that has read the current object comes to its commit. */
  lemma CommittingCan(o: State, i: int, j: int) returns (events: seq<Event>)
    requires o.completion.SawObject? && o.store.overview != Absent && ValidList(o.completion.list, o.store.parts)
    ensures Can(o, events, [], Committing(o), i, j)
  {
    var c, b := o.completion, o;
    events, b := MarkingCan(o, i, j);
    var l := b.(completion := Listed(c.list, c.objMD, c.plan, o.store.parts));
    CanOne(b, CompleteList, l, i, j);
    CanOne(l, CompletePrepare, Committing(o), i, j);
    CanJoin(b, [CompleteList], [], l, [CompletePrepare], [], Committing(o), i, j);
    CanJoin(o, events, [], b, [CompleteList] + [CompletePrepare], [], Committing(o), i, j);
    events := events + ([CompleteList] + [CompletePrepare]);
  }

  /** Between the commit and the last attempt: the other attempts fail, and the last one reads the object. */
  lemma ReadingCan(s: State, lists: seq<seq<nat>>, a: nat, i: int, j: int) returns (events: seq<Event>)
    requires a + 1 < |lists| && s.completion == Idle
    ensures Can(s, events, lists[a + 1..], Reading(s, lists[|lists| - 1]), i, j)
  {
    var last := |lists| - 1;
    var failed := FailedAttempts(s, lists[a + 1..last]);
    GoesCan(s, failed, lists[a + 1..last], s, i, j);
    var read := CompleteReadObject(lists[last]);
    CanOne(s, read, Reading(s, lists[last]), i - (last - a - 1), j - (last - a - 1));
    CanJoin(s, failed, lists[a + 1..last], s, [read], [lists[last]], Reading(s, lists[last]), i, j);
    events := failed + [read];
    assert lists[a + 1..last] + [lists[last]] == lists[a + 1..];
  }

  /** The runs of the failing cases: something happens (`between`) after attempt a has committed, or
      (`during`) after the last one has read the object. */
  lemma ReplayCan(lists: seq<seq<nat>>, a: nat, i: nat, j: nat, e0: seq<Event>, s: State,
                  between: seq<Event>, t: State, during: seq<Event>, o: State)
    returns (events: seq<Event>)
    requires a + 1 < |lists| && Can(Uploaded(0), e0, lists[..a + 1], s, i, j)
    requires Can(s, between, [], t, i - (a + 1), j - (a + 1)) && t.completion == Idle
    requires Can(Reading(t, lists[|lists| - 1]), during, [], o, i - |lists|, j - |lists|)
    requires o.completion.SawObject? && o.store.overview != Absent && ValidList(o.completion.list, o.store.parts)
    ensures Can(Uploaded(0), events, lists, Committing(o), i, j)
  {
    var last := |lists| - 1;
    CanThen(Uploaded(0), e0, lists[..a + 1], s, between, t, i, j);
    var e1 := ReadingCan(t, lists, a, i - (a + 1), j - (a + 1));
    CanJoin(Uploaded(0), e0 + between, lists[..a + 1], t, e1, lists[a + 1..], Reading(t, lists[last]), i, j);
    assert lists[..a + 1] + lists[a + 1..] == lists;
    CanThen(Uploaded(0), e0 + between + e1, lists, Reading(t, lists[last]), during, o, i, j);
    var e2 := CommittingCan(o, i - |lists|, j - |lists|);
    CanThen(Uploaded(0), e0 + between + e1 + during, lists, o, e2, Committing(o), i, j);
    events := e0 + between + e1 + during + e2;
  }

  /** The commit of a completion that finds data of its list in an object made of something else. */
  lemma ReplayFails(lists: seq<seq<nat>>, i: nat, j: nat, events: seq<Event>, m: State, vid: nat, l: Location)
    requires Can(Uploaded(0), events, lists, m, i, j) && vid !in m.store.versions
    requires var c := m.completion;
      c.Prepared? && ValidList(c.list, c.snapshot) && c.objMD.Some? && l in c.objMD.value && l in Locate(c.list, c.snapshot)
    requires MasterLocation(m.store) != Some(Locate(m.completion.list, m.completion.snapshot))
    ensures !AlwaysListed(lists, i, j)
  {
    var t := Step(m, CompleteCommit(vid)).value;
    assert !LeavesListed(m, t);
    assert Initial(Uploaded(0));
  }

  /** Different lists are made of different data. */
  lemma {:induction false} LocateTells(a: seq<nat>, b: seq<nat>, k: nat)
    requires forall n <- a + b :: n in PartsUpTo(k)
    requires Locate(a, PartsUpTo(k)) == Locate(b, PartsUpTo(k))
    ensures a == b
  {
    LocateLength(a, k);
    LocateLength(b, k);
    if a != [] {
      var data := Locate(a, PartsUpTo(k));
      assert a[0] in a + b && b[0] in a + b;
      assert data[0] == PartData(a[0]) && data[0] == PartData(b[0]);
      assert data[1..] == Locate(a[1..], PartsUpTo(k)) && data[1..] == Locate(b[1..], PartsUpTo(k));
      assert |PartData(a[0]).key| == a[0] && |PartData(b[0]).key| == b[0];
      LocateTells(a[1..], b[1..], k);
    }
  }

  lemma {:induction false} LocateLength(a: seq<nat>, k: nat)
    requires forall n <- a :: n in PartsUpTo(k)
    ensures |Locate(a, PartsUpTo(k))| == |a|
  {
    if a != [] {
      LocateLength(a[1..], k);
    }
  }

  /** Case 1: an earlier attempt named other parts, but not only others. */
  lemma OtherListFails(lists: seq<seq<nat>>, a: nat, n: nat, i: nat, j: nat)
    requires a + 1 < |lists| && forall list <- lists :: IsPartList(list, MAX_PART_NUMBER)
    requires lists[a] != lists[|lists| - 1] && n in lists[a] && n in lists[|lists| - 1]
    ensures !AlwaysListed(lists, i, j)
  {
    var k, list := MAX_PART_NUMBER, lists[|lists| - 1];
    assert list in lists && lists[a] in lists;
    var e0, s := CommitCan(lists, a, i, j);
    GoesNowhere(s, i - (a + 1), j - (a + 1));
    GoesNowhere(Reading(s, list), i - |lists|, j - |lists|);
    var events := ReplayCan(lists, a, i, j, e0, s, [], s, [], Reading(s, list));
    LocateAll(lists[a], PartsUpTo(k), n, PartData(n));
    LocateAll(list, PartsUpTo(k), n, PartData(n));
    if Locate(list, PartsUpTo(k)) == Locate(lists[a], PartsUpTo(k)) {
      LocateTells(list, lists[a], k);
    }
    ReplayFails(lists, i, j, events, Committing(Reading(s, list)), 1, PartData(n));
  }

  lemma GoesNowhere(s: State, i: int, j: int)
    ensures Can(s, [], [], s, i, j)
  {
  }

  /** Part n is uploaded again, and the overwritten data is left to the request. */
  lemma UploadAgain(s: State, n: nat, i: nat, j: int) returns (events: seq<Event>, t: State)
    requires HasCommitted(s, MAX_PART_NUMBER, n) && 1 <= n <= MAX_PART_NUMBER && MAX_PART_NUMBER + 1 !in s.puts
    ensures Can(s, events, [], t, i, j) && t.completion == Idle
    ensures t.store == s.store.(
      parts := PartsUpTo(MAX_PART_NUMBER)[n := [PartData(MAX_PART_NUMBER + 1)]], issued := t.store.issued)
  {
    var k, pid := MAX_PART_NUMBER, MAX_PART_NUMBER + 1;
    var data := [PartData(pid)];
    IsNewData(k);
    var a := s.(puts := s.puts[pid := Begun(Upload, n)]);
    var b := a.(puts := a.puts[pid := SawPart(n, Some([PartData(n)]))]);
    var c := Step(b, PutWriteData(pid, data)).value;
    t := Step(c, PutStorePart(pid)).value;
    CanOne(s, PutBegin(pid, Upload, n), a, i, j);
    CanOne(a, PutReadPart(pid), b, i, j);
    CanOne(b, PutWriteData(pid, data), c, i, j);
    CanOne(c, PutStorePart(pid), t, i, j);
    CanJoin(s, [PutBegin(pid, Upload, n)], [], a, [PutReadPart(pid)], [], b, i, j);
    CanJoin(b, [PutWriteData(pid, data)], [], c, [PutStorePart(pid)], [], t, i, j);
    CanJoin(s, [PutBegin(pid, Upload, n)] + [PutReadPart(pid)], [], b, [PutWriteData(pid, data)] + [PutStorePart(pid)], [], t, i, j);
    events := [PutBegin(pid, Upload, n)] + [PutReadPart(pid)] + ([PutWriteData(pid, data)] + [PutStorePart(pid)]);
  }

  lemma IsNewData(k: nat)
    ensures IsFresh(Uploaded(k).store, [PartData(k + 1)])
  {
    forall n: nat | 1 <= n <= k
      ensures PartData(n) != PartData(k + 1)
    {
      PartDataDiffers(n, k + 1);
    }
  }

  /** Case 2: the same parts, one of which was uploaded again in between. */
  lemma UploadBetweenFails(lists: seq<seq<nat>>, a: nat, i: nat, j: nat)
    requires a + 1 < |lists| && forall list <- lists :: IsPartList(list, MAX_PART_NUMBER)
    requires lists[a] == lists[|lists| - 1] && a < i && |lists[a]| > 1
    ensures !AlwaysListed(lists, i, j)
  {
    var k, list := MAX_PART_NUMBER, lists[|lists| - 1];
    assert list in lists && list[0] in list && list[1] in list;
    var e0, s := CommitCan(lists, a, i, j);
    var e1, t := UploadAgain(s, list[0], i - (a + 1), j - (a + 1));
    GoesNowhere(Reading(t, list), i - |lists|, j - |lists|);
    var events := ReplayCan(lists, a, i, j, e0, s, e1, t, [], Reading(t, list));
    var parts := t.store.parts;
    assert parts[list[1]] == [PartData(list[1])];
    LocateAll(list, PartsUpTo(k), list[1], PartData(list[1]));
    LocateAll(list, parts, list[1], PartData(list[1]));
    assert Locate(list, parts)[0] == PartData(k + 1) && Locate(list, PartsUpTo(k))[0] == PartData(list[0]);
    PartDataDiffers(k + 1, list[0]);
    ReplayFails(lists, i, j, events, Committing(Reading(t, list)), 1, PartData(list[1]));
  }

  /** Case 3: the same parts, and another write after the last attempt has read the object. */
  lemma OtherDuringFails(lists: seq<seq<nat>>, a: nat, i: nat, j: nat)
    requires a + 1 < |lists| <= j && forall list <- lists :: IsPartList(list, MAX_PART_NUMBER)
    requires lists[a] == lists[|lists| - 1]
    ensures !AlwaysListed(lists, i, j)
  {
    var k, list := MAX_PART_NUMBER, lists[|lists| - 1];
    assert list in lists && list[0] in list;
    var e0, s := CommitCan(lists, a, i, j);
    var r, other := Reading(s, list), OtherPut(1, [PartData(k + 1)]);
    var o := OtherDuring(r, k, list[0]);
    GoesNowhere(s, i - (a + 1), j - (a + 1));
    CanOne(r, other, o, i - |lists|, j - |lists|);
    var events := ReplayCan(lists, a, i, j, e0, s, [], s, [other], o);
    LocateAll(list, PartsUpTo(k), list[0], PartData(list[0]));
    assert Locate(list, PartsUpTo(k))[0] == PartData(list[0]);
    PartDataDiffers(k + 1, list[0]);
    ReplayFails(lists, i, j, events, Committing(o), 2, PartData(list[0]));
  }

  lemma OtherDuring(r: State, k: nat, m: nat) returns (o: State)
    requires HasCommitted(r.(completion := Idle), k, m)
    ensures Step(r, OtherPut(1, [PartData(k + 1)])) == Some(o) && o.completion == r.completion
    ensures o.store.parts == r.store.parts && o.store.overview == Completing && o.store.versions.Keys == {0, 1}
    ensures MasterLocation(o.store) == Some([PartData(k + 1)])
  {
    IsNewData(k);
    o := Step(r, OtherPut(1, [PartData(k + 1)])).value;
    assert Dropped(r.store) == {} && r.store.versions - {} == r.store.versions;
  }

  // ----- the exact condition

  /** For all part lists and all i and j: a successful commit of the last attempt always leaves what it
      has listed if and only if each earlier attempt either has no part in common with it, or names
      the same parts while nobody else writes the key in the last attempt and, after that earlier
      attempt has begun, no part is stored, unless there is only one. */
  lemma ListedExactly(lists: seq<seq<nat>>, i: nat, j: nat)
    requires forall list <- lists :: IsPartList(list, MAX_PART_NUMBER)
    ensures AlwaysListed(lists, i, j) <==> ReplaysAgree(lists, i, j)
  {
    if !ReplaysAgree(lists, i, j) {
      var a: nat :| a + 1 < |lists| && !NothingBetween(lists, a, i, j);
      var last := lists[|lists| - 1];
      var n :| n in ToSet(lists[a]) && n in ToSet(last);
      if lists[a] != last {
        OtherListFails(lists, a, n, i, j);
      } else if j >= |lists| {
        OtherDuringFails(lists, a, i, j);
      } else {
        UploadBetweenFails(lists, a, i, j);
      }
    } else {
      forall s, events, m, vid, t |
        Initial(s) && Leads(s, events, lists, m) && OnlyBefore(PartStores, events, i) && OnlyBefore(OtherWrites, events, j)
        && Step(m, CompleteCommit(vid)) == Some(t)
        ensures LeavesListed(m, t)
      {
        RunLeavesListed(s, events, m, vid, t, i, j);
      }
    }
  }
}
