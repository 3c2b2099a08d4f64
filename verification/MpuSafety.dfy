/** Whole runs of the multipart-upload protocol: when no run ever loses data. */
module MpuSafety {
  import opened Wrappers
  import opened Sequences
  import opened Locations
  import opened MpuModel
  import opened MpuInvariant

  /** The part lists of the completion attempts of a run, in order. */
  function Attempts(events: seq<Event>): seq<seq<nat>> {
    if events == [] then []
    else (if events[0].CompleteReadObject? then [events[0].parts] else []) + Attempts(events[1..])
  }

  /** Each attempt names at least the part numbers that the attempts before it named.
      Attempts that all name the same parts are the usual case. */
  predicate Grow(lists: seq<seq<nat>>) {
    forall i, j :: 0 <= i < j < |lists| ==> ToSet(lists[i]) <= ToSet(lists[j])
  }

  /** The versioning status of the bucket as each attempt begins. */
  function Statuses(status: Versioning, events: seq<Event>): seq<Versioning>
    decreases |events|
  {
    if events == [] then []
    else if events[0].CompleteReadObject? then [status] + Statuses(status, events[1..])
    else Statuses(if events[0].SetVersioning? then events[0].status else status, events[1..])
  }

  /** No attempt begins while versioning is suspended after one that began while it was enabled. */
  predicate NotSuspendedAgain(statuses: seq<Versioning>) {
    forall i, j :: 0 <= i < j < |statuses| ==> !(statuses[i] == Enabled && statuses[j] == Suspended)
  }

  // ----- one event

  lemma StepKeeps(s: State, e: Event, t: State, base: set<Location>, named: set<nat>, enabled: bool)
    requires Step(s, e) == Some(t) && Inv(s, base, named) && PlanFits(s, enabled) && !e.OtherPut?
    requires e.CompleteReadObject? ==> named <= ToSet(e.parts)
    ensures Inv(t, base, if e.CompleteReadObject? then ToSet(e.parts) else named)
  {
    match e
    case PutWriteData(_, _) => WriteDataKeeps(s, e, t, base, named);
    case CompleteReadObject(_) => CompleteReadKeeps(s, e, t, base, named);
    case CompleteCommit(_) => CommitKeeps(s, e, t, base, named, enabled);
    case _ => PassesOnKeeps(s, e, t, base, named);
  }

  // ----- all runs

  /** No completion attempt has begun. */
  ghost predicate NoAttemptYet(s: State) {
    s.completion.Idle? && s.store.overview == Open
  }

  lemma StillNoAttempt(s: State, e: Event, t: State)
    requires Step(s, e) == Some(t) && NoAttemptYet(s) && !e.CompleteReadObject?
    ensures NoAttemptYet(t)
  {
  }

  /** What is known on the way of a run: what is older than the upload, the parts that the latest
      attempt names, and whether one has begun while versioning was enabled. */
  datatype Known = Known(base: set<Location>, named: set<nat>, enabled: bool)

  ghost predicate Keeps(s: State, k: Known) {
    Inv(s, k.base, k.named) && PlanFits(s, k.enabled)
  }

  function After(s: State, e: Event, k: Known): Known {
    match e
    case OtherPut(_, data) => k.(base := k.base + ToSet(data))
    case CompleteReadObject(parts) => k.(named := ToSet(parts), enabled := k.enabled || s.store.versioning == Enabled)
    case _ => k
  }

  /** The next event of a run. `attempt` is how many more attempts may begin before others stop writing. */
  lemma AnyStepKeeps(s: State, e: Event, t: State, k: Known, attempt: int)
    requires Step(s, e) == Some(t) && Keeps(s, k) && attempt <= 0
    requires (attempt == 0 ==> NoAttemptYet(s) && !k.enabled) && (e.OtherPut? ==> attempt >= 0)
    requires e.CompleteReadObject? ==> k.named <= ToSet(e.parts) && (k.enabled ==> s.store.versioning != Suspended)
    ensures Keeps(t, After(s, e, k))
    ensures attempt == 0 && !e.CompleteReadObject? ==> NoAttemptYet(t)
  {
    if e.OtherPut? {
      OtherPutKeeps(s, e, t, k.base, k.named);
      OtherPutPlan(s, e, t, k.base, k.named);
    } else {
      StepKeeps(s, e, t, k.base, k.named, k.enabled);
      PlanStays(s, e, t, k.base, k.named, k.enabled);
    }
    if attempt == 0 && !e.CompleteReadObject? {
      StillNoAttempt(s, e, t);
    }
  }

  lemma {:induction false} RunKeeps(s: State, events: seq<Event>, t: State, k: Known, attempt: int) returns (k': Known)
    requires Run(s, events) == Some(t) && Keeps(s, k) && attempt <= 0 && OnlyBefore(OtherWrites, events, attempt)
    requires attempt == 0 ==> NoAttemptYet(s) && !k.enabled
    requires Grow(Attempts(events)) && forall list <- Attempts(events) :: k.named <= ToSet(list)
    requires NotSuspendedAgain(Statuses(s.store.versioning, events))
    requires k.enabled ==> Suspended !in Statuses(s.store.versioning, events)
    ensures Keeps(t, k')
    decreases |events|
  {
    k' := k;
    if events != [] {
      var e, rest := events[0], events[1..];
      var next := Step(s, e).value;
      FirstAttempt(events);
      FirstStatus(s, events, next);
      AnyStepKeeps(s, e, next, k, attempt);
      k' := RunKeeps(next, rest, t, After(s, e, k), Remaining(e, attempt));
    }
  }

  lemma FirstStatus(s: State, events: seq<Event>, next: State)
    requires events != [] && Step(s, events[0]) == Some(next)
    requires NotSuspendedAgain(Statuses(s.store.versioning, events))
    ensures var later := Statuses(next.store.versioning, events[1..]);
            && NotSuspendedAgain(later) && (forall status <- later :: status in Statuses(s.store.versioning, events))
            && (events[0].CompleteReadObject? ==>
                  && s.store.versioning in Statuses(s.store.versioning, events)
                  && (s.store.versioning == Enabled ==> Suspended !in later))
  {
    StatusStays(s, events[0], next);
    if events[0].CompleteReadObject? {
      LaterStatuses(s.store.versioning, Statuses(next.store.versioning, events[1..]));
    }
  }

  lemma LaterStatuses(first: Versioning, later: seq<Versioning>)
    requires NotSuspendedAgain([first] + later)
    ensures NotSuspendedAgain(later) && (first == Enabled ==> Suspended !in later)
  {
    var all := [first] + later;
    assert forall i :: 0 <= i < |later| ==> all[i + 1] == later[i];
    assert all[0] == first;
  }

  lemma StatusStays(s: State, e: Event, t: State)
    requires Step(s, e) == Some(t)
    ensures t.store.versioning == if e.SetVersioning? then e.status else s.store.versioning
  {
  }

  lemma FirstAttempt(events: seq<Event>)
    requires events != [] && Grow(Attempts(events))
    ensures Grow(Attempts(events[1..]))
    ensures forall list <- Attempts(events[1..]) :: list in Attempts(events)
    ensures events[0].CompleteReadObject? ==>
      events[0].parts in Attempts(events) && forall list <- Attempts(events[1..]) :: ToSet(events[0].parts) <= ToSet(list)
  {
    var e, rest := events[0], events[1..];
    if e.CompleteReadObject? {
      assert Attempts(events) == [e.parts] + Attempts(rest);
      assert e.parts == Attempts(events)[0];
      assert forall i :: 0 <= i < |Attempts(rest)| ==> Attempts(rest)[i] == Attempts(events)[i + 1];
    } else {
      assert Attempts(events) == Attempts(rest);
    }
  }

  /** In every interleaving of any number of part uploads and part copies with serial completion
      attempts, each of them failing at any point, with other writes of the key before the first
      attempt and with changes of the versioning status at any time, no stored object and no stored part
      refers to deleted data, and no two versions of the object share data: if the part lists grow, and
      no attempt begins while versioning is suspended after one that began while it was enabled. */
  lemma EveryRunIsSafe(s: State, events: seq<Event>, t: State)
    requires Initial(s) && Run(s, events) == Some(t)
    requires OnlyBefore(OtherWrites, events, 0) && Grow(Attempts(events))
    requires NotSuspendedAgain(Statuses(s.store.versioning, events))
    ensures Safe(t.store)
  {
    InitialInv(s);
    var k := RunKeeps(s, events, t, Known(s.store.issued, {}, false), 0);
    InvIsSafe(t, k.base, k.named);
  }

  // ----- the part lists must grow

  /** A location of its own for each part number. */
  function PartData(n: nat): Location {
    Location("file", seq(n, _ => 'x'))
  }

  function PartsUpTo(k: nat): map<nat, seq<Location>> {
    map n: nat | 1 <= n <= k :: [PartData(n)]
  }

  /** An upload after parts 1 to k were uploaded, in a versioned bucket if nothing else is said. */
  ghost function Uploaded(k: nat, status: Versioning := Enabled): State {
    State(
      Store(Open, PartsUpTo(k), map[], None, None, status, set n: nat | 1 <= n <= k :: PartData(n), multiset{}),
      map n | n in PartsUpTo(k) :: Done,
      Idle)
  }

  lemma {:induction false} AttemptsJoin(a: seq<Event>, b: seq<Event>)
    ensures Attempts(a + b) == Attempts(a) + Attempts(b)
  {
    if a == [] {
      assert a + b == b;
    } else {
      assert (a + b)[0] == a[0] && (a + b)[1..] == a[1..] + b;
      AttemptsJoin(a[1..], b);
    }
  }

  lemma {:induction false} OnlyBeforeJoins(kind: Kind, a: seq<Event>, b: seq<Event>, attempt: int)
    requires OnlyBefore(kind, a, attempt) && OnlyBefore(kind, b, attempt - |Attempts(a)|)
    ensures OnlyBefore(kind, a + b, attempt)
    decreases |a|
  {
    if a == [] {
      assert a + b == b;
    } else {
      assert (a + b)[0] == a[0] && (a + b)[1..] == a[1..] + b;
      OnlyBeforeJoins(kind, a[1..], b, Remaining(a[0], attempt));
    }
  }

  lemma {:induction false} NoAttempts(events: seq<Event>)
    requires forall e <- events :: !e.CompleteReadObject?
    ensures Attempts(events) == []
  {
    if events != [] {
      assert events[0] in events;
      NoAttempts(events[1..]);
    }
  }

  /** As long as no attempt has begun, anything may happen. */
  lemma {:induction false} BeforeAttempts(kind: Kind, events: seq<Event>, attempt: nat)
    requires Attempts(events) == []
    ensures OnlyBefore(kind, events, attempt)
    decreases |events|
  {
    if events != [] {
      BeforeAttempts(kind, events[1..], attempt);
    }
  }

  /** A run given by the states it passes through. */
  lemma {:induction false} RunPath(events: seq<Event>, path: seq<State>)
    requires |path| == |events| + 1
    requires forall i :: 0 <= i < |events| ==> Step(path[i], events[i]) == Some(path[i + 1])
    ensures Run(path[0], events) == Some(path[|events|])
  {
    if events != [] {
      assert forall i :: 0 <= i < |events| - 1 ==> Step(path[1..][i], events[1..][i]) == Some(path[1..][i + 1]);
      RunPath(events[1..], path[1..]);
    }
  }

  function UploadOne(k: nat): seq<Event> {
    [PutBegin(k, Upload, k), PutReadPart(k), PutWriteData(k, [PartData(k)]), PutStorePart(k)]
  }

  lemma PartDataDiffers(m: nat, n: nat)
    requires m != n
    ensures PartData(m) != PartData(n)
  {
    assert |PartData(m).key| == m && |PartData(n).key| == n;
  }

  /** Part k is uploaded from here on. */
  ghost function Uploading(k: nat, data: seq<Location>, put: Put, status: Versioning): State
    requires k > 0
  {
    var s := Uploaded(k - 1, status);
    State(s.store.(issued := s.store.issued + ToSet(data)), s.puts[k := put], Idle)
  }

  lemma UploadOneStarts(k: nat, status: Versioning)
    requires 1 <= k <= MAX_PART_NUMBER
    ensures Step(Uploaded(k - 1, status), PutBegin(k, Upload, k)) == Some(Uploading(k, [], Begun(Upload, k), status))
    ensures Step(Uploading(k, [], Begun(Upload, k), status), PutReadPart(k)) == Some(Uploading(k, [], SawPart(k, None), status))
  {
    assert Uploaded(k - 1, status).puts[k := Begun(Upload, k)][k := SawPart(k, None)] == Uploaded(k - 1, status).puts[k := SawPart(k, None)];
    assert Uploaded(k - 1, status).store.issued + ToSet([]) == Uploaded(k - 1, status).store.issued;
  }

  lemma UploadOneWrites(k: nat, status: Versioning)
    requires 1 <= k <= MAX_PART_NUMBER
    ensures Step(Uploading(k, [], SawPart(k, None), status), PutWriteData(k, [PartData(k)]))
         == Some(Uploading(k, [PartData(k)], Ready(k, None, [PartData(k)]), status))
  {
    var s, d := Uploaded(k - 1, status), [PartData(k)];
    assert s.store.issued + ToSet([]) == s.store.issued;
    forall n: nat | 1 <= n < k
      ensures PartData(n) != PartData(k)
    {
      PartDataDiffers(n, k);
    }
    assert s.puts[k := SawPart(k, None)][k := Ready(k, None, d)] == s.puts[k := Ready(k, None, d)];
  }

  lemma UploadOneStores(k: nat, status: Versioning)
    requires 1 <= k <= MAX_PART_NUMBER
    ensures Step(Uploading(k, [PartData(k)], Ready(k, None, [PartData(k)]), status), PutStorePart(k)) == Some(Uploaded(k, status))
  {
    var s, d := Uploaded(k - 1, status), [PartData(k)];
    assert s.store.parts[k := d] == PartsUpTo(k);
    assert s.puts[k := Ready(k, None, d)][k := Done] == Uploaded(k, status).puts;
    assert s.store.issued + ToSet(d) == Uploaded(k, status).store.issued;
  }

  lemma UploadOneRuns(k: nat, status: Versioning)
    requires 1 <= k <= MAX_PART_NUMBER
    ensures Run(Uploaded(k - 1, status), UploadOne(k)) == Some(Uploaded(k, status))
  {
    UploadOneStarts(k, status);
    UploadOneWrites(k, status);
    UploadOneStores(k, status);
    RunPath(UploadOne(k), [Uploaded(k - 1, status), Uploading(k, [], Begun(Upload, k), status), Uploading(k, [], SawPart(k, None), status),
                           Uploading(k, [PartData(k)], Ready(k, None, [PartData(k)]), status), Uploaded(k, status)]);
  }

  /** A completion attempt for `list`, up to and including the commit. */
  function AttemptEvents(list: seq<nat>, vid: nat): seq<Event> {
    [CompleteReadObject(list), CompleteReadOverview, CompleteMark, CompleteList, CompletePrepare, CompleteCommit(vid)]
  }

  /** What an attempt that runs undisturbed up to its commit leaves for its cleanup. */
  ghost function AfterAttempt(s: State, list: seq<nat>, vid: nat): State
    requires ValidList(list, s.store.parts)
  {
    var store := s.store;
    var md, data, plan := MasterLocation(store), Locate(list, store.parts), ProcessVersioningState(store);
    var extra := ExtraLocations(list, store.parts);
    var prepared := Prepare(store, md, plan).(overview := Completing);
    if IsReplay(md, data) then State(prepared, s.puts, Cleanup({}, store.parts.Keys, true, extra))
    else State(Commit(prepared, vid, plan, data), s.puts,
               Cleanup(DataToDelete(store.nullKey, md, plan), store.parts.Keys, true, extra))
  }

  lemma AttemptIsNamed(list: seq<nat>, vid: nat)
    ensures Attempts(AttemptEvents(list, vid)) == [list]
  {
    NoAttempts(AttemptEvents(list, vid)[1..]);
  }

  /** A completion that has marked the upload and listed its parts. */
  ghost function AfterListing(s: State, list: seq<nat>): State {
    var marked := s.store.(overview := Completing);
    s.(store := marked, completion := Listed(list, MasterLocation(s.store), ProcessVersioningState(s.store), s.store.parts))
  }

  lemma ListingRuns(s: State, list: seq<nat>)
    requires s.completion == Idle && s.store.overview != Absent
    ensures Run(s, AttemptEvents(list, 0)[..4]) == Some(AfterListing(s, list))
  {
    var md, plan := MasterLocation(s.store), ProcessVersioningState(s.store);
    RunPath(AttemptEvents(list, 0)[..4],
            [s, s.(completion := SawObject(list, md, plan)), s.(completion := SawOverview(list, md, plan)),
             s.(store := s.store.(overview := Completing), completion := Marked(list, md, plan)), AfterListing(s, list)]);
  }

  /** A completion that has written what has to be written ahead of the new version. */
  ghost function AfterPrepare(s: State, list: seq<nat>): State {
    var md, plan := MasterLocation(s.store), ProcessVersioningState(s.store);
    s.(store := Prepare(s.store.(overview := Completing), md, plan),
       completion := Prepared(list, md, plan, s.store.parts, DataToDelete(s.store.nullKey, md, plan)))
  }

  lemma AttemptRuns(s: State, list: seq<nat>, vid: nat)
    requires s.completion == Idle && s.store.overview != Absent
    requires ValidList(list, s.store.parts) && vid !in s.store.versions
    ensures Run(s, AttemptEvents(list, vid)) == Some(AfterAttempt(s, list, vid))
  {
    ListingRuns(s, list);
    AttemptCommits(s, list, vid);
    RunPath([CompletePrepare, CompleteCommit(vid)], [AfterListing(s, list), AfterPrepare(s, list), AfterAttempt(s, list, vid)]);
    RunSplits(s, AttemptEvents(list, 0)[..4], [CompletePrepare, CompleteCommit(vid)]);
    assert AttemptEvents(list, 0)[..4] + [CompletePrepare, CompleteCommit(vid)] == AttemptEvents(list, vid);
  }

  lemma AttemptCommits(s: State, list: seq<nat>, vid: nat)
    requires s.completion == Idle && ValidList(list, s.store.parts) && vid !in s.store.versions
    ensures Step(AfterListing(s, list), CompletePrepare) == Some(AfterPrepare(s, list))
    ensures Step(AfterPrepare(s, list), CompleteCommit(vid)) == Some(AfterAttempt(s, list, vid))
  {
  }

  /** The events lead from s to t; their completion attempts name `lists`. */
  ghost predicate Leads(s: State, events: seq<Event>, lists: seq<seq<nat>>, t: State) {
    Run(s, events) == Some(t) && Attempts(events) == lists
  }

  lemma LeadsOn(s: State, a: seq<Event>, la: seq<seq<nat>>, t: State, b: seq<Event>, lb: seq<seq<nat>>, u: State)
    requires Leads(s, a, la, t) && Leads(t, b, lb, u)
    ensures Leads(s, a + b, la + lb, u)
  {
    RunSplits(s, a, b);
    AttemptsJoin(a, b);
  }

  /** No other request writes the key or changes the versioning status. */
  predicate Alone(events: seq<Event>) {
    forall e <- events :: !e.OtherPut? && !e.SetVersioning?
  }

  ghost predicate Goes(s: State, events: seq<Event>, lists: seq<seq<nat>>, t: State) {
    Leads(s, events, lists, t) && Alone(events)
  }

  lemma AloneIsBefore(events: seq<Event>, attempt: int)
    requires Alone(events)
    ensures OnlyBefore(OtherWrites, events, attempt)
  {
    NoneIsBefore(OtherWrites, events, attempt);
  }

  function StatusAfter(status: Versioning, events: seq<Event>): Versioning
    decreases |events|
  {
    if events == [] then status
    else StatusAfter(if events[0].SetVersioning? then events[0].status else status, events[1..])
  }

  lemma {:induction false} StatusesJoin(status: Versioning, a: seq<Event>, b: seq<Event>)
    ensures Statuses(status, a + b) == Statuses(status, a) + Statuses(StatusAfter(status, a), b)
    decreases |a|
  {
    if a == [] {
      assert a + b == b;
    } else {
      assert (a + b)[0] == a[0] && (a + b)[1..] == a[1..] + b;
      StatusesJoin(if a[0].SetVersioning? then a[0].status else status, a[1..], b);
    }
  }

  lemma {:induction false} StatusAtEnd(s: State, events: seq<Event>, t: State)
    requires Run(s, events) == Some(t)
    ensures t.store.versioning == StatusAfter(s.store.versioning, events)
    decreases |events|
  {
    if events != [] {
      StatusStays(s, events[0], Step(s, events[0]).value);
      StatusAtEnd(Step(s, events[0]).value, events[1..], t);
    }
  }

  /** When nobody changes it, every attempt begins under the same status. */
  lemma {:induction false} SameStatus(status: Versioning, events: seq<Event>)
    requires forall e <- events :: !e.SetVersioning?
    ensures Statuses(status, events) == seq(|Attempts(events)|, _ => status)
    ensures StatusAfter(status, events) == status && NotSuspendedAgain(Statuses(status, events))
    decreases |events|
  {
    if events != [] {
      assert events[0] in events;
      SameStatus(status, events[1..]);
    }
  }

  lemma GoesOn(s: State, a: seq<Event>, la: seq<seq<nat>>, t: State, b: seq<Event>, lb: seq<seq<nat>>, u: State)
    requires Goes(s, a, la, t) && Goes(t, b, lb, u)
    ensures Goes(s, a + b, la + lb, u)
  {
    LeadsOn(s, a, la, t, b, lb, u);
  }

  /** The first stretch has no attempt. */
  lemma GoesFirst(s: State, a: seq<Event>, m: State, b: seq<Event>, lb: seq<seq<nat>>, t: State)
    requires Goes(s, a, [], m) && Goes(m, b, lb, t)
    ensures Goes(s, a + b, lb, t)
  {
    GoesOn(s, a, [], m, b, lb, t);
    assert [] + lb == lb;
  }

  /** The second stretch has no attempt. */
  lemma GoesThen(s: State, a: seq<Event>, la: seq<seq<nat>>, m: State, b: seq<Event>, t: State)
    requires Goes(s, a, la, m) && Goes(m, b, [], t)
    ensures Goes(s, a + b, la, t)
  {
    GoesOn(s, a, la, m, b, [], t);
    assert la + [] == la;
  }

  lemma GoesSlices(s: State, a: seq<Event>, m: State, b: seq<Event>, t: State, lists: seq<seq<nat>>, i: nat, j: nat)
    requires i <= j <= |lists| && Goes(s, a, lists[..i], m) && Goes(m, b, lists[i..j], t)
    ensures Goes(s, a + b, lists[..j], t)
  {
    GoesOn(s, a, lists[..i], m, b, lists[i..j], t);
    assert lists[..i] + lists[i..j] == lists[..j];
  }

  lemma UploadOneGoes(k: nat, status: Versioning)
    requires 1 <= k <= MAX_PART_NUMBER
    ensures Goes(Uploaded(k - 1, status), UploadOne(k), [], Uploaded(k, status))
  {
    var one := UploadOne(k);
    UploadOneRuns(k, status);
    NoAttempts(one);
  }

  lemma {:induction false} UploadGoes(k: nat, status: Versioning := Enabled) returns (events: seq<Event>)
    requires k <= MAX_PART_NUMBER
    ensures Goes(Uploaded(0, status), events, [], Uploaded(k, status))
  {
    events := [];
    if k > 0 {
      events := UploadGoes(k - 1, status);
      UploadOneGoes(k, status);
      GoesOn(Uploaded(0, status), events, [], Uploaded(k - 1, status), UploadOne(k), [], Uploaded(k, status));
      events := events + UploadOne(k);
    }
  }

  lemma GoesOne(s: State, e: Event, t: State)
    requires Step(s, e) == Some(t) && !e.CompleteReadObject? && !e.OtherPut? && !e.SetVersioning?
    ensures Goes(s, [e], [], t)
  {
    RunPath([e], [s, t]);
    assert Attempts([e][1..]) == [];
  }

  /** Attempts that fail right after their first read. */
  lemma {:induction false} FailedAttempts(s: State, lists: seq<seq<nat>>) returns (events: seq<Event>)
    requires s.completion == Idle
    ensures Goes(s, events, lists, s) && NoneOf(PartStores, events)
  {
    events := [];
    if lists != [] {
      var one := [CompleteReadObject(lists[0]), CompleteStop];
      RunPath(one, [s, s.(completion := SawObject(lists[0], MasterLocation(s.store), ProcessVersioningState(s.store))), s]);
      assert Attempts(one[1..][1..]) == [] && Attempts(one[1..]) == [];
      var rest := FailedAttempts(s, lists[1..]);
      events := one + rest;
      GoesOn(s, one, [lists[0]], s, rest, lists[1..], s);
      assert [lists[0]] + lists[1..] == lists;
    }
  }

  /** The cleanup of an attempt deletes the part metadata, one key at a time. */
  lemma {:induction false} PartKeysGo(s: State) returns (events: seq<Event>)
    requires s.completion.Cleanup? && s.completion.replaced == {}
    ensures Goes(s, events, [], s.(store := s.store.(parts := s.store.parts - s.completion.keys),
                                   completion := s.completion.(keys := {})))
    decreases s.completion.keys
  {
    events := [];
    var c, parts := s.completion, s.store.parts;
    var goal := s.(store := s.store.(parts := parts - c.keys), completion := c.(keys := {}));
    if c.keys == {} {
      assert parts - c.keys == parts;
    } else {
      var n :| n in c.keys;
      var t := s.(store := s.store.(parts := parts - {n}), completion := c.(keys := c.keys - {n}));
      GoesOne(s, CompleteDeletePart(n), t);
      var rest := PartKeysGo(t);
      assert parts - {n} - (c.keys - {n}) == parts - c.keys;
      GoesOn(s, [CompleteDeletePart(n)], [], t, rest, [], goal);
      events := [CompleteDeletePart(n)] + rest;
    }
  }

  /** A list that a completion may name: ascending part numbers up to k. */
  predicate IsPartList(list: seq<nat>, k: nat) {
    list != [] && Ascending(list) && forall n <- list :: 1 <= n <= k
  }

  /** The cleanup is about to delete the data of part m, which version 0 still refers to. */
  ghost predicate CanLose(s: State, k: nat, m: nat) {
    && s.completion.Cleanup? && s.completion.replaced == {} && s.completion.overviewKey
    && s.completion.keys == PartsUpTo(k).Keys && s.store.parts == PartsUpTo(k)
    && PartData(m) in s.completion.extra
    && 0 in s.store.versions && PartData(m) in s.store.versions[0].location
  }

  lemma LosingCleanup(s: State, k: nat, m: nat) returns (events: seq<Event>, t: State)
    requires CanLose(s, k, m)
    ensures Goes(s, events, [], t) && t.completion == Idle && !Safe(t.store)
  {
    events := PartKeysGo(s);
    assert s.store.parts - s.completion.keys == map[];
    var s1 := s.(store := s.store.(parts := map[]), completion := s.completion.(keys := {}));
    var s2 := s1.(store := s1.store.(overview := Absent), completion := s1.completion.(overviewKey := false));
    var s3 := Step(s2, CompleteDeleteExtra(PartData(m))).value;
    t := s3.(completion := Idle);
    GoesOne(s1, CompleteDeleteOverview, s2);
    GoesOne(s2, CompleteDeleteExtra(PartData(m)), s3);
    GoesOne(s3, CompleteStop, t);
    GoesThen(s, events, [], s1, [CompleteDeleteOverview], s2);
    GoesThen(s, events + [CompleteDeleteOverview], [], s2, [CompleteDeleteExtra(PartData(m))], s3);
    events := events + [CompleteDeleteOverview] + [CompleteDeleteExtra(PartData(m))];
    GoesThen(s, events, [], s3, [CompleteStop], t);
    events := events + [CompleteStop];
    assert PartData(m) in t.store.deleted;
  }

  /** Attempts that fail, and then one that runs up to its commit. */
  lemma AttemptAfterFailures(s: State, lists: seq<seq<nat>>, i: nat, j: nat, vid: nat) returns (events: seq<Event>)
    requires i <= j < |lists| && s.completion == Idle && s.store.overview != Absent
    requires ValidList(lists[j], s.store.parts) && vid !in s.store.versions
    ensures Goes(s, events, lists[i..j + 1], AfterAttempt(s, lists[j], vid)) && NoneOf(PartStores, events)
  {
    var failed := FailedAttempts(s, lists[i..j]);
    AttemptRuns(s, lists[j], vid);
    AttemptIsNamed(lists[j], vid);
    var attempt := AttemptEvents(lists[j], vid);
    GoesOn(s, failed, lists[i..j], s, attempt, [lists[j]], AfterAttempt(s, lists[j], vid));
    assert lists[i..j] + [lists[j]] == lists[i..j + 1];
    events := failed + attempt;
  }

  /** The first attempt has committed part m, and stopped before its cleanup. */
  ghost predicate HasCommitted(s: State, k: nat, m: nat) {
    && s.completion == Idle && s.store.overview == Completing && s.store.versioning == Enabled
    && s.store.parts == PartsUpTo(k) && s.store.issued == Uploaded(k).store.issued
    && s.store.versions.Keys == {0} && PartData(m) in s.store.versions[0].location && !MasterIsNull(s.store)
  }

  lemma FirstCommit(list: seq<nat>, k: nat, m: nat)
    requires IsPartList(list, k) && m in list
    ensures HasCommitted(AfterAttempt(Uploaded(k), list, 0).(completion := Idle), k, m)
  {
    LocateAll(list, PartsUpTo(k), m, PartData(m));
  }

  lemma SecondCommit(s: State, list: seq<nat>, k: nat, m: nat)
    requires HasCommitted(s, k, m) && IsPartList(list, k) && m !in list && 1 <= m <= k
    ensures CanLose(AfterAttempt(s, list, 1), k, m)
  {
    assert Dropped(s.store) == {} && s.store.versions - {} == s.store.versions;
    assert PartData(m) in PartsUpTo(k)[m];
  }

  /** One attempt commits and stops before its cleanup. */
  lemma CommitFirst(lists: seq<seq<nat>>, i: nat, k: nat, m: nat) returns (events: seq<Event>, a: State)
    requires i < |lists| && IsPartList(lists[i], k) && m in lists[i]
    ensures Goes(Uploaded(k), events, lists[..i + 1], a) && HasCommitted(a, k, m)
    ensures a == AfterAttempt(Uploaded(k), lists[i], 0).(completion := Idle) && NoneOf(PartStores, events)
  {
    var u := Uploaded(k);
    events := AttemptAfterFailures(u, lists, 0, i, 0);
    var b := AfterAttempt(u, lists[i], 0);
    a := b.(completion := Idle);
    FirstCommit(lists[i], k, m);
    GoesOne(b, CompleteStop, a);
    GoesThen(u, events, lists[0..i + 1], b, [CompleteStop], a);
    events := events + [CompleteStop];
    assert lists[0..i + 1] == lists[..i + 1];
  }

  /** One attempt commits and stops before its cleanup; a later one reaches its own cleanup. */
  lemma TwoCommits(lists: seq<seq<nat>>, i: nat, j: nat, k: nat, m: nat) returns (events: seq<Event>, t: State)
    requires i < j < |lists| && IsPartList(lists[i], k) && IsPartList(lists[j], k)
    requires m in lists[i] && m !in lists[j]
    ensures Goes(Uploaded(k), events, lists[..j + 1], t) && CanLose(t, k, m)
  {
    var e1, a := CommitFirst(lists, i, k, m);
    var e2;
    e2, t := SecondAttempt(a, lists, i + 1, j, k, m);
    GoesSlices(Uploaded(k), e1, a, e2, t, lists, i + 1, j + 1);
    events := e1 + e2;
  }

  lemma SecondAttempt(a: State, lists: seq<seq<nat>>, i: nat, j: nat, k: nat, m: nat) returns (events: seq<Event>, t: State)
    requires HasCommitted(a, k, m) && i <= j < |lists| && IsPartList(lists[j], k) && m !in lists[j] && 1 <= m <= k
    ensures Goes(a, events, lists[i..j + 1], t) && CanLose(t, k, m)
  {
    events := AttemptAfterFailures(a, lists, i, j, 1);
    t := AfterAttempt(a, lists[j], 1);
    SecondCommit(a, lists[j], k, m);
  }

  /** If a later attempt leaves out a part that an earlier one named, some run loses the data of
      the committed object. */
  lemma ShrinkingListLosesData(lists: seq<seq<nat>>, i: nat, j: nat, k: nat) returns (events: seq<Event>, t: State)
    requires k <= MAX_PART_NUMBER && forall list <- lists :: IsPartList(list, k)
    requires i < j < |lists| && !(ToSet(lists[i]) <= ToSet(lists[j]))
    ensures Goes(Uploaded(0), events, lists, t) && !Safe(t.store)
  {
    assert lists[i] in lists && lists[j] in lists;
    var m :| m in ToSet(lists[i]) && m !in ToSet(lists[j]);
    var uploads := UploadGoes(k);
    var e1, b := TwoCommits(lists, i, j, k, m);
    GoesFirst(Uploaded(0), uploads, Uploaded(k), e1, lists[..j + 1], b);
    var rest;
    rest, t := LosingEnd(b, lists[j + 1..], k, m);
    assert lists[j + 1..] == lists[j + 1..|lists|] && lists[..|lists|] == lists;
    GoesSlices(Uploaded(0), uploads + e1, b, rest, t, lists, j + 1, |lists|);
    events := uploads + e1 + rest;
  }

  lemma LosingEnd(b: State, lists: seq<seq<nat>>, k: nat, m: nat) returns (events: seq<Event>, t: State)
    requires CanLose(b, k, m)
    ensures Goes(b, events, lists, t) && !Safe(t.store)
  {
    events, t := LosingCleanup(b, k, m);
    var failed := FailedAttempts(t, lists);
    GoesFirst(b, events, t, failed, lists, t);
    events := events + failed;
  }
}
