/** Completion requests of one upload that overlap: the machine with any number of completions under
    way, and exactly when its runs are safe. */
module MpuOverlap {
  import opened Wrappers
  import opened Sequences
  import opened Locations
  import opened MpuModel
  import opened MpuInvariant
  import opened MpuSafety
  import opened MpuReplay

  /** Every completion request has a slot of its own. */
  datatype Shared = Shared(store: Store, puts: map<nat, Put>, completions: map<nat, Completion>)

  /** An event, of the completion in this slot if it is one of a completion. */
  datatype Act = Act(slot: nat, e: Event)

  ghost function At(s: Shared, slot: nat): State
    requires slot in s.completions
  {
    State(s.store, s.puts, s.completions[slot])
  }

  function With(s: Shared, slot: nat, t: State): Shared {
    Shared(t.store, t.puts, s.completions[slot := t.completion])
  }

  ghost function StepAt(s: Shared, a: Act): Option<Shared> {
    if a.slot !in s.completions then None
    else match Step(At(s, a.slot), a.e)
      case None => None
      case Some(t) => Some(With(s, a.slot, t))
  }

  ghost function RunShared(s: Shared, acts: seq<Act>): Option<Shared>
    decreases |acts|
  {
    if acts == [] then Some(s)
    else match StepAt(s, acts[0])
      case None => None
      case Some(next) => RunShared(next, acts[1..])
  }

  function Events(acts: seq<Act>): seq<Event> {
    if acts == [] then [] else [acts[0].e] + Events(acts[1..])
  }

  ghost predicate InitialShared(s: Shared, slots: set<nat>) {
    && s.completions.Keys == slots && (forall k :: k in slots ==> s.completions[k] == Idle)
    && Initial(State(s.store, s.puts, Idle))
  }

  /** All runs of so many completions whose attempts name these lists, in the order in which they begin.
      Other writes and the versioning status do no harm on their own. */
  ghost predicate AlwaysSafeWith(slots: set<nat>, lists: seq<seq<nat>>) {
    forall s, acts, t ::
      InitialShared(s, slots) && RunShared(s, acts) == Some(t) && Attempts(Events(acts)) == lists
      && OnlyBefore(OtherWrites, Events(acts), 0) && NotSuspendedAgain(Statuses(s.store.versioning, Events(acts)))
      ==> Safe(t.store)
  }

  // ----- one completion at work

  /** What happens, as the completion in this slot sees it: that another one stops is nothing. */
  function SeenFrom(slot: nat, acts: seq<Act>): seq<Event> {
    if acts == [] then []
    else (if acts[0].slot != slot && acts[0].e.CompleteStop? then [] else [acts[0].e]) + SeenFrom(slot, acts[1..])
  }

  lemma {:induction false} SeenIsSame(slot: nat, acts: seq<Act>, status: Versioning, attempt: int)
    ensures Attempts(SeenFrom(slot, acts)) == Attempts(Events(acts))
    ensures Statuses(status, SeenFrom(slot, acts)) == Statuses(status, Events(acts))
    ensures OnlyBefore(OtherWrites, Events(acts), attempt) ==> OnlyBefore(OtherWrites, SeenFrom(slot, acts), attempt)
    decreases |acts|
  {
    if acts != [] {
      var e, rest := acts[0].e, acts[1..];
      assert Events(acts)[1..] == Events(rest);
      SeenIsSame(slot, rest, if e.SetVersioning? then e.status else status, Remaining(e, attempt));
      if acts[0].slot != slot && e.CompleteStop? {
        assert SeenFrom(slot, acts) == SeenFrom(slot, rest);
      } else {
        assert SeenFrom(slot, acts)[1..] == SeenFrom(slot, rest);
      }
    }
  }

  /** No other slot than this one has a completion, or begins one. */
  ghost predicate OnlySlot(s: Shared, acts: seq<Act>, slot: nat) {
    && slot in s.completions
    && (forall k :: k in s.completions && k != slot ==> s.completions[k] == Idle)
    && (forall a <- acts :: a.e.CompleteReadObject? ==> a.slot == slot)
  }

  /** An idle completion does nothing. */
  lemma IdleStep(s: State, e: Event, t: State, c: Completion)
    requires s.completion == Idle && Step(s, e) == Some(t) && !e.CompleteReadObject?
    ensures t.completion == Idle
    ensures if e.CompleteStop? then t == s
            else Step(s.(completion := c), e) == Some(t.(completion := c))
  {
  }

  lemma {:induction false} OneSlotRuns(s: Shared, acts: seq<Act>, t: Shared, slot: nat)
    requires RunShared(s, acts) == Some(t) && OnlySlot(s, acts, slot)
    ensures slot in t.completions && Run(At(s, slot), SeenFrom(slot, acts)) == Some(At(t, slot))
    decreases |acts|
  {
    if acts != [] {
      var a, rest := acts[0], acts[1..];
      var next := StepAt(s, a).value;
      assert a in acts;
      if a.slot != slot {
        IdleStep(At(s, a.slot), a.e, Step(At(s, a.slot), a.e).value, s.completions[slot]);
      }
      OneSlotRuns(next, rest, t, slot);
      var seen := SeenFrom(slot, acts);
      if a.slot != slot && a.e.CompleteStop? {
        assert seen == SeenFrom(slot, rest);
      } else {
        assert seen[0] == a.e && seen[1..] == SeenFrom(slot, rest);
      }
    }
  }

  lemma OneSlotIsSafe(s: Shared, acts: seq<Act>, t: Shared, slots: set<nat>, slot: nat)
    requires InitialShared(s, slots) && RunShared(s, acts) == Some(t) && OnlySlot(s, acts, slot)
    requires Grow(Attempts(Events(acts)))
    requires OnlyBefore(OtherWrites, Events(acts), 0) && NotSuspendedAgain(Statuses(s.store.versioning, Events(acts)))
    ensures Safe(t.store)
  {
    OneSlotRuns(s, acts, t, slot);
    SeenIsSame(slot, acts, s.store.versioning, 0);
    EveryRunIsSafe(At(s, slot), SeenFrom(slot, acts), At(t, slot));
  }

  /** The slot of the first attempt. */
  lemma {:induction false} SoleAttempt(acts: seq<Act>, slot: nat) returns (first: nat)
    requires |Attempts(Events(acts))| <= 1
    ensures forall a <- acts :: a.e.CompleteReadObject? ==> a.slot == first
    ensures first == slot || exists a <- acts :: a.slot == first
    decreases |acts|
  {
    first := slot;
    if acts != [] {
      var a, rest := acts[0], acts[1..];
      assert Events(acts)[1..] == Events(rest);
      first := SoleAttempt(rest, slot);
      if a.e.CompleteReadObject? {
        NoReadLeft(rest);
        first := a.slot;
      }
    }
  }

  lemma {:induction false} NoReadLeft(acts: seq<Act>)
    requires Attempts(Events(acts)) == []
    ensures forall a <- acts :: !a.e.CompleteReadObject?
    decreases |acts|
  {
    if acts != [] {
      assert Events(acts)[1..] == Events(acts[1..]);
      NoReadLeft(acts[1..]);
    }
  }

  lemma {:induction false} SlotsExist(s: Shared, acts: seq<Act>)
    requires RunShared(s, acts).Some?
    ensures forall a <- acts :: a.slot in s.completions
    decreases |acts|
  {
    if acts != [] {
      SlotsExist(StepAt(s, acts[0]).value, acts[1..]);
    }
  }

  // ----- two completions at work

  /** A run of the machine with one completion, in this slot. */
  function InSlot(slot: nat, events: seq<Event>): seq<Act> {
    seq(|events|, i requires 0 <= i < |events| => Act(slot, events[i]))
  }

  /** The acts lead from s to t; their attempts name `lists`. Nobody else writes the key or changes the
      versioning status. */
  ghost predicate Runs(s: Shared, acts: seq<Act>, lists: seq<seq<nat>>, t: Shared) {
    && RunShared(s, acts) == Some(t) && Attempts(Events(acts)) == lists && Alone(Events(acts))
  }

  lemma {:induction false} EventsJoin(a: seq<Act>, b: seq<Act>)
    ensures Events(a + b) == Events(a) + Events(b)
  {
    if a == [] {
      assert a + b == b;
    } else {
      assert (a + b)[1..] == a[1..] + b;
      EventsJoin(a[1..], b);
    }
  }

  lemma {:induction false} SharedSplits(s: Shared, a: seq<Act>, b: seq<Act>)
    requires RunShared(s, a).Some?
    ensures RunShared(s, a + b) == RunShared(RunShared(s, a).value, b)
    decreases |a|
  {
    if a == [] {
      assert a + b == b;
    } else {
      assert (a + b)[0] == a[0] && (a + b)[1..] == a[1..] + b;
      SharedSplits(StepAt(s, a[0]).value, a[1..], b);
    }
  }

  lemma RunsOn(s: Shared, a: seq<Act>, la: seq<seq<nat>>, m: Shared, b: seq<Act>, lb: seq<seq<nat>>, t: Shared)
    requires Runs(s, a, la, m) && Runs(m, b, lb, t)
    ensures Runs(s, a + b, la + lb, t)
  {
    SharedSplits(s, a, b);
    EventsJoin(a, b);
    AttemptsJoin(Events(a), Events(b));
  }

  lemma {:induction false} EventsInSlot(slot: nat, events: seq<Event>)
    ensures Events(InSlot(slot, events)) == events
  {
    if events != [] {
      assert InSlot(slot, events)[1..] == InSlot(slot, events[1..]);
      EventsInSlot(slot, events[1..]);
    }
  }

  lemma {:induction false} RunInSlot(s: Shared, slot: nat, events: seq<Event>, t: State)
    requires slot in s.completions && Run(At(s, slot), events) == Some(t)
    ensures RunShared(s, InSlot(slot, events)) == Some(With(s, slot, t))
    decreases |events|
  {
    if events == [] {
      assert With(s, slot, t) == s;
    } else {
      var next := Step(At(s, slot), events[0]).value;
      assert InSlot(slot, events)[1..] == InSlot(slot, events[1..]);
      RunInSlot(With(s, slot, next), slot, events[1..], t);
      assert With(With(s, slot, next), slot, t) == With(s, slot, t);
    }
  }

  lemma GoesInSlot(s: Shared, slot: nat, events: seq<Event>, lists: seq<seq<nat>>, t: State)
    requires slot in s.completions && Goes(At(s, slot), events, lists, t)
    ensures Runs(s, InSlot(slot, events), lists, With(s, slot, t))
  {
    EventsInSlot(slot, events);
    RunInSlot(s, slot, events, t);
  }

  /** Both completions have read the current object before either of them commits. */
  lemma {:induction false} BothRead(u: Shared, p: nat, q: nat, a: seq<nat>, b: seq<nat>) returns (acts: seq<Act>, t: Shared)
    requires p in u.completions && q in u.completions && p != q && u.completions[p] == u.completions[q] == Idle
    ensures Runs(u, acts, [a, b], t)
    ensures t == u.(completions := u.completions[p := Reading(At(u, p), a).completion][q := Reading(At(u, q), b).completion])
  {
    var m := With(u, p, Reading(At(u, p), a));
    t := With(m, q, Reading(At(u, q), b));
    ReadGoes(At(u, p), a);
    ReadGoes(At(m, q), b);
    GoesInSlot(u, p, [CompleteReadObject(a)], [a], Reading(At(u, p), a));
    GoesInSlot(m, q, [CompleteReadObject(b)], [b], Reading(At(u, q), b));
    RunsOn(u, InSlot(p, [CompleteReadObject(a)]), [a], m, InSlot(q, [CompleteReadObject(b)]), [b], t);
    acts := InSlot(p, [CompleteReadObject(a)]) + InSlot(q, [CompleteReadObject(b)]);
    assert [a] + [b] == [a, b];
  }

  lemma ReadGoes(s: State, list: seq<nat>)
    requires s.completion == Idle
    ensures Goes(s, [CompleteReadObject(list)], [list], Reading(s, list))
  {
    RunPath([CompleteReadObject(list)], [s, Reading(s, list)]);
    NoAttempts([CompleteReadObject(list)][1..]);
  }

  /** A completion that has read that there is no object commits one. */
  lemma CommitGoes(o: State, vid: nat) returns (events: seq<Event>, t: State)
    requires o.completion.SawObject? && o.completion.objMD.None? && o.completion.plan == Add && o.store.overview != Absent
    requires ValidList(o.completion.list, o.store.parts) && vid !in o.store.versions
    ensures Goes(o, events, [], t) && t.completion.Cleanup?
    ensures t.store == Commit(o.store, vid, Add, Locate(o.completion.list, o.store.parts)).(overview := Completing)
    ensures t.puts == o.puts
  {
    var c := o.completion;
    var a := o.(completion := SawOverview(c.list, c.objMD, c.plan));
    var b := a.(store := o.store.(overview := Completing), completion := Marked(c.list, c.objMD, c.plan));
    var l := b.(completion := Listed(c.list, c.objMD, c.plan, o.store.parts));
    t := Step(Committing(o), CompleteCommit(vid)).value;
    GoesOne(o, CompleteReadOverview, a);
    GoesOne(a, CompleteMark, b);
    GoesOne(b, CompleteList, l);
    GoesOne(l, CompletePrepare, Committing(o));
    GoesOne(Committing(o), CompleteCommit(vid), t);
    GoesFirst(o, [CompleteReadOverview], a, [CompleteMark], [], b);
    GoesFirst(o, [CompleteReadOverview] + [CompleteMark], b, [CompleteList], [], l);
    GoesFirst(l, [CompletePrepare], Committing(o), [CompleteCommit(vid)], [], t);
    GoesFirst(o, [CompleteReadOverview] + [CompleteMark] + [CompleteList], l, [CompletePrepare] + [CompleteCommit(vid)], [], t);
    events := [CompleteReadOverview] + [CompleteMark] + [CompleteList] + ([CompletePrepare] + [CompleteCommit(vid)]);
  }

  /** Nothing is stored yet, and no completion has begun. */
  ghost function Fresh(slots: set<nat>): Shared {
    Shared(Uploaded(0).store, Uploaded(0).puts, map k | k in slots :: Idle)
  }

  /** All parts are uploaded, and both completions have read that there is no object. */
  ghost predicate BothSawNothing(s: Shared, p: nat, q: nat, a: seq<nat>, b: seq<nat>) {
    && p in s.completions && q in s.completions && p != q
    && s.store == Uploaded(MAX_PART_NUMBER).store
    && s.completions[p] == SawObject(a, None, Add) && s.completions[q] == SawObject(b, None, Add)
  }

  lemma UpToReads(slots: set<nat>, p: nat, q: nat, a: seq<nat>, b: seq<nat>) returns (acts: seq<Act>, t: Shared)
    requires p in slots && q in slots && p != q
    ensures Runs(Fresh(slots), acts, [a, b], t) && BothSawNothing(t, p, q, a, b)
  {
    var u := Fresh(slots);
    var uploads := UploadGoes(MAX_PART_NUMBER);
    assert At(u, p) == Uploaded(0);
    GoesInSlot(u, p, uploads, [], Uploaded(MAX_PART_NUMBER));
    var m := With(u, p, Uploaded(MAX_PART_NUMBER));
    var both;
    both, t := BothRead(m, p, q, a, b);
    RunsOn(u, InSlot(p, uploads), [], m, both, [a, b], t);
    acts := InSlot(p, uploads) + both;
    assert [] + [a, b] == [a, b];
  }

  /** Both commit: neither knows of the other, so two versions get the same data. */
  lemma BothCommit(s: Shared, p: nat, q: nat, a: seq<nat>, b: seq<nat>) returns (acts: seq<Act>, t: Shared)
    requires BothSawNothing(s, p, q, a, b) && IsPartList(a, MAX_PART_NUMBER) && IsPartList(b, MAX_PART_NUMBER)
    requires !(ToSet(a) !! ToSet(b))
    ensures Runs(s, acts, [], t) && !Safe(t.store) && p in t.completions && t.completions[p].Cleanup?
  {
    var e1, t1 := CommitGoes(At(s, p), 0);
    GoesInSlot(s, p, e1, [], t1);
    var m := With(s, p, t1);
    var e2, t2 := CommitGoes(At(m, q), 1);
    GoesInSlot(m, q, e2, [], t2);
    t := With(m, q, t2);
    RunsOn(s, InSlot(p, e1), [], m, InSlot(q, e2), [], t);
    acts := InSlot(p, e1) + InSlot(q, e2);
    SharedData(s.store, a, b);
  }

  lemma SharedData(store: Store, a: seq<nat>, b: seq<nat>)
    requires store == Uploaded(MAX_PART_NUMBER).store
    requires IsPartList(a, MAX_PART_NUMBER) && IsPartList(b, MAX_PART_NUMBER) && !(ToSet(a) !! ToSet(b))
    ensures ValidList(a, store.parts) && ValidList(b, store.parts)
    ensures var first := Commit(store, 0, Add, Locate(a, store.parts)).(overview := Completing);
            !Safe(Commit(first, 1, Add, Locate(b, store.parts)).(overview := Completing))
  {
    var m :| m in ToSet(a) && m in ToSet(b);
    var l := PartData(m);
    LocateAll(a, store.parts, m, l);
    LocateAll(b, store.parts, m, l);
    var first := Commit(store, 0, Add, Locate(a, store.parts)).(overview := Completing);
    var both := Commit(first, 1, Add, Locate(b, store.parts)).(overview := Completing);
    assert first.versions.Keys == {0} && Dropped(first) == {};
    assert 0 in both.versions && 1 in both.versions && l in both.versions[0].location && l in both.versions[1].location;
    assert !SeparateVersions(both.versions);
  }

  lemma OverlapLosesSeparation(slots: set<nat>, p: nat, q: nat, lists: seq<seq<nat>>) returns (acts: seq<Act>, t: Shared)
    requires p in slots && q in slots && p != q && |lists| >= 2
    requires forall list <- lists :: IsPartList(list, MAX_PART_NUMBER)
    requires !(ToSet(lists[0]) !! ToSet(lists[1]))
    ensures InitialShared(Fresh(slots), slots) && Runs(Fresh(slots), acts, lists, t) && !Safe(t.store)
  {
    assert lists[0] in lists && lists[1] in lists;
    var u, m1, m2 := Fresh(slots), Fresh(slots), Fresh(slots);
    var commits, rest;
    acts, m1 := UpToReads(slots, p, q, lists[0], lists[1]);
    commits, m2 := BothCommit(m1, p, q, lists[0], lists[1]);
    rest, t := MoreFailures(m2, p, lists[2..]);
    RunsOn(u, acts, [lists[0], lists[1]], m1, commits, [], m2);
    RunsOn(u, acts + commits, [lists[0], lists[1]] + [], m2, rest, lists[2..], t);
    acts := acts + commits + rest;
    assert [lists[0], lists[1]] + [] + lists[2..] == lists;
    assert Initial(Uploaded(0));
  }

  /** The completion in this slot stops, and more attempts fail there. */
  lemma MoreFailures(s: Shared, p: nat, lists: seq<seq<nat>>) returns (acts: seq<Act>, t: Shared)
    requires p in s.completions
    ensures Runs(s, acts, lists, t) && t.store == s.store
  {
    var stopped := At(s, p).(completion := Idle);
    GoesOne(At(s, p), CompleteStop, stopped);
    var failed := FailedAttempts(stopped, lists);
    GoesFirst(At(s, p), [CompleteStop], stopped, failed, lists, stopped);
    t := With(s, p, stopped);
    acts := InSlot(p, [CompleteStop] + failed);
    GoesInSlot(s, p, [CompleteStop] + failed, lists, stopped);
  }

  // ----- the exact condition

  /** For all growing part lists and any number of completion requests that may be under way at a time:
      all runs are safe if and only if there is at most one of them, or at most one attempt. */
  lemma OverlapExactly(slots: set<nat>, lists: seq<seq<nat>>)
    requires Grow(lists) && forall list <- lists :: IsPartList(list, MAX_PART_NUMBER)
    ensures AlwaysSafeWith(slots, lists) <==> |slots| <= 1 || |lists| <= 1
  {
    if |slots| > 1 && |lists| > 1 {
      var p :| p in slots;
      assert |slots - {p}| > 0;
      var q :| q in slots - {p};
      assert lists[0] in lists && lists[0][0] in ToSet(lists[0]) && ToSet(lists[0]) <= ToSet(lists[1]);
      var acts, t := OverlapLosesSeparation(slots, p, q, lists);
      AloneIsBefore(Events(acts), 0);
      SameStatus(Enabled, Events(acts));
    } else {
      forall s, acts, t |
        InitialShared(s, slots) && RunShared(s, acts) == Some(t) && Attempts(Events(acts)) == lists
        && OnlyBefore(OtherWrites, Events(acts), 0) && NotSuspendedAgain(Statuses(s.store.versioning, Events(acts)))
        ensures Safe(t.store)
      {
        FewIsSafe(s, acts, t, slots);
      }
    }
  }

  lemma FewIsSafe(s: Shared, acts: seq<Act>, t: Shared, slots: set<nat>)
    requires InitialShared(s, slots) && RunShared(s, acts) == Some(t) && Grow(Attempts(Events(acts)))
    requires OnlyBefore(OtherWrites, Events(acts), 0) && NotSuspendedAgain(Statuses(s.store.versioning, Events(acts)))
    requires |slots| <= 1 || |Attempts(Events(acts))| <= 1
    ensures Safe(t.store)
  {
    if acts == [] {
      NothingHappens(s, slots);
    } else {
      SlotsExist(s, acts);
      var slot := acts[0].slot;
      assert acts[0] in acts;
      if |slots| <= 1 {
        forall k | k in slots
          ensures k == slot
        {
          OnlyOne(slots, slot, k);
        }
      } else {
        slot := SoleAttempt(acts, slot);
      }
      OneSlotIsSafe(s, acts, t, slots, slot);
    }
  }

  lemma NothingHappens(s: Shared, slots: set<nat>)
    requires InitialShared(s, slots)
    ensures Safe(s.store)
  {
    EveryRunIsSafe(State(s.store, s.puts, Idle), [], State(s.store, s.puts, Idle));
  }

  lemma OnlyOne(slots: set<nat>, a: nat, b: nat)
    requires |slots| <= 1 && a in slots && b in slots
    ensures a == b
  {
    assert |slots - {a}| == |slots| - 1;
    assert slots - {a} == {};
  }
}
