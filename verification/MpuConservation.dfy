/** The books of an upload: in every run in which requests do not overlap and do not fail, each new
    location ends up in the object or is deleted once. */
module MpuConservation {
  import opened Wrappers
  import opened Sequences
  import opened Locations
  import opened MpuModel
  import opened MpuInvariant
  import opened MpuSafety

  // ----- undisturbed runs

  /** A put-part request that has nothing left to do. */
  predicate IsQuiet(put: Put) {
    put.Done? || put == Deleting({})
  }

  ghost predicate AllQuiet(s: State) {
    forall p :: p in s.puts ==> IsQuiet(s.puts[p])
  }

  /** A request only begins when the ones before have done all they had to do, no completion stops
      halfway, and nobody else writes the key or changes the versioning of the bucket. */
  ghost predicate Calm(s: State, e: Event) {
    match e
    case PutBegin(_, _, _) => AllQuiet(s) && s.completion.Idle?
    case CompleteReadObject(_) => AllQuiet(s)
    case CompleteStop => false
    case SetVersioning(_) => false
    case OtherPut(_, _) => false
    case _ => true
  }

  ghost predicate Undisturbed(s: State, events: seq<Event>)
    decreases |events|
  {
    events == []
    || (var init, e := events[..|events| - 1], events[|events| - 1];
        Undisturbed(s, init) && Run(s, init).Some? && Calm(Run(s, init).value, e))
  }

  /** The last event of a run. */
  lemma RunLast(s: State, events: seq<Event>)
    requires events != [] && Run(s, events[..|events| - 1]).Some?
    ensures var init, e := events[..|events| - 1], events[|events| - 1];
            Run(s, events) == Step(Run(s, init).value, e)
            && Attempts(events) == Attempts(init) + if e.CompleteReadObject? then [e.parts] else []
  {
    var init, e := events[..|events| - 1], events[|events| - 1];
    assert events == init + [e];
    RunSplits(s, init, [e]);
    AttemptsJoin(init, [e]);
    var mid := Run(s, init).value;
    assert Attempts([e][1..]) == [];
    if Step(mid, e).Some? {
      RunPath([e], [mid, Step(mid, e).value]);
    }
  }

  // ----- what was uploaded, read off the events

  /** One part upload or part copy, and the data that it was given. */
  datatype PartUpload = PartUpload(n: nat, data: seq<Location>)

  /** The part number that request pid was made for. */
  function NumberOf(events: seq<Event>, pid: nat): Option<nat>
    decreases |events|
  {
    if events == [] then None
    else
      var last := |events| - 1;
      if events[last].PutBegin? && events[last].pid == pid then Some(events[last].n) else NumberOf(events[..last], pid)
  }

  /** The data that request pid wrote. */
  function DataOf(events: seq<Event>, pid: nat): Option<seq<Location>>
    decreases |events|
  {
    if events == [] then None
    else
      var last := |events| - 1;
      if events[last].PutWriteData? && events[last].pid == pid then Some(events[last].data) else DataOf(events[..last], pid)
  }

  /** The uploads that reached the part metadata, in order. */
  function UploadsOf(events: seq<Event>): seq<PartUpload>
    decreases |events|
  {
    if events == [] then []
    else
      var init, e := events[..|events| - 1], events[|events| - 1];
      if e.PutStorePart? && NumberOf(init, e.pid).Some? && DataOf(init, e.pid).Some?
      then UploadsOf(init) + [PartUpload(NumberOf(init, e.pid).value, DataOf(init, e.pid).value)]
      else UploadsOf(init)
  }

  /** The data of the last upload of part n. */
  function LastUpload(uploads: seq<PartUpload>, n: nat): Option<seq<Location>> {
    if uploads == [] then None
    else
      var last := |uploads| - 1;
      if uploads[last].n == n then Some(uploads[last].data) else LastUpload(uploads[..last], n)
  }

  /** Upload i is of part n, and no later one is. */
  ghost predicate IsLastUpload(uploads: seq<PartUpload>, n: nat, i: nat) {
    i < |uploads| && uploads[i].n == n && forall j :: i < j < |uploads| ==> uploads[j].n != n
  }

  lemma {:induction false} LastUploadIs(uploads: seq<PartUpload>, n: nat)
    ensures LastUpload(uploads, n).None? <==> forall u <- uploads :: u.n != n
    ensures forall i: nat :: IsLastUpload(uploads, n, i) ==> LastUpload(uploads, n) == Some(uploads[i].data)
  {
    if uploads != [] {
      var last := |uploads| - 1;
      LastUploadIs(uploads[..last], n);
      assert uploads == uploads[..last] + [uploads[last]];
      forall i: nat | IsLastUpload(uploads, n, i)
        ensures LastUpload(uploads, n) == Some(uploads[i].data)
      {
        assert i < last ==> IsLastUpload(uploads[..last], n, i);
      }
    }
  }

  /** The last upload of every part that has one. */
  function LastUploads(uploads: seq<PartUpload>, list: seq<nat>): map<nat, seq<Location>> {
    map n | n in list && LastUpload(uploads, n).Some? :: LastUpload(uploads, n).value
  }

  /** Requests under way remember what the events say. */
  ghost predicate Traced(events: seq<Event>, s: State) {
    forall p :: p in s.puts ==> TracedPut(events, p, s.puts[p])
  }

  ghost predicate TracedPut(events: seq<Event>, p: nat, put: Put) {
    && (put.Begun? || put.SawPart? || put.Copied? || put.Ready? ==> NumberOf(events, p) == Some(put.n))
    && (put.Copied? || put.Ready? ==> DataOf(events, p) == Some(put.data))
  }

  lemma StepTraces(s: State, events: seq<Event>, t: State)
    requires events != [] && Traced(events[..|events| - 1], s) && Step(s, events[|events| - 1]) == Some(t)
    ensures Traced(events, t)
  {
    var init, e := events[..|events| - 1], events[|events| - 1];
    forall p | p in t.puts
      ensures TracedPut(events, p, t.puts[p])
    {
      assert p in s.puts ==> TracedPut(init, p, s.puts[p]);
    }
  }

  // ----- the store, once the request under way has done all it has to do

  /** Data that is not published yet does not count, and overwritten data counts as deleted. */
  ghost function Settled(store: Store, put: Put): Store {
    match put
    case Copied(_, data) => store.(issued := store.issued - ToSet(data))
    case Ready(_, _, data) => store.(issued := store.issued - ToSet(data))
    case Stored(replacedPart) => store.(deleted := store.deleted + multiset(ToSet(replacedPart)))
    case Deleting(todo) => store.(deleted := store.deleted + multiset(todo))
    case _ => store
  }

  /** A part upload or part copy: the new data takes the place of the old, which is deleted. */
  ghost function PutEffect(store: Store, n: nat, data: seq<Location>): Store {
    store.(
      parts := store.parts[n := data],
      issued := store.issued + ToSet(data),
      deleted := store.deleted + if n in store.parts then multiset(ToSet(store.parts[n])) else multiset{})
  }

  /** Each new location is in exactly one stored part, or deleted once; the parts are the last uploads. */
  ghost predicate Accounted(start: Store, store: Store, uploads: seq<PartUpload>) {
    && start.issued <= store.issued
    && store.versions == start.versions && store.master == start.master && store.versioning == start.versioning
    && (forall n :: PartAt(store.parts, n) == LastUpload(uploads, n))
    && (forall n, l :: n in store.parts && l in store.parts[n] ==> l in store.issued && l !in start.issued)
    && (forall m, n, l :: m in store.parts && n in store.parts && m != n && l in store.parts[m] ==> l !in store.parts[n])
    && (forall l :: l in store.issued && l !in start.issued ==>
          store.deleted[l] == if exists n :: n in store.parts && l in store.parts[n] then 0 else 1)
    && (forall l :: l !in store.issued || l in start.issued ==> store.deleted[l] == start.deleted[l])
  }

  lemma PutAccounts(start: Store, store: Store, uploads: seq<PartUpload>, n: nat, data: seq<Location>)
    requires Accounted(start, store, uploads) && IsFresh(store, data)
    requires forall l :: l in start.deleted ==> l in start.issued
    ensures Accounted(start, PutEffect(store, n, data), uploads + [PartUpload(n, data)])
  {
    var t, u := PutEffect(store, n, data), PartUpload(n, data);
    assert (uploads + [u])[..|uploads|] == uploads;
    forall l | l in t.issued && l !in start.issued
      ensures t.deleted[l] == if exists n :: n in t.parts && l in t.parts[n] then 0 else 1
    {
      if l in data {
        assert n in t.parts && l in t.parts[n];
      } else if n in store.parts && l in store.parts[n] {
        assert forall n :: n in t.parts ==> l !in t.parts[n];
      } else {
        assert forall n :: n in store.parts && l in store.parts[n] ==> n in t.parts && l in t.parts[n];
        assert forall n :: n in t.parts && l in t.parts[n] ==> n in store.parts && l in store.parts[n];
      }
    }
  }

  // ----- what an undisturbed run keeps before the commit

  /** Only request `active` may be under way, and none of them while a completion is. */
  ghost predicate OneAtATime(s: State, active: Option<nat>) {
    && (active.Some? ==> active.value in s.puts)
    && (active.None? || !s.completion.Idle? ==> AllQuiet(s))
    && (forall p :: p in s.puts && Some(p) != active ==> IsQuiet(s.puts[p]))
  }

  ghost function SettledState(s: State, active: Option<nat>): Store
    requires active.Some? ==> active.value in s.puts
  {
    if active.Some? then Settled(s.store, s.puts[active.value]) else s.store
  }

  /** What the request under way has seen is still so, and its data is new. */
  ghost predicate UpToDate(start: Store, store: Store, put: Put) {
    && (put.SawPart? || put.Ready? ==> put.before == PartAt(store.parts, put.n))
    && (put.Copied? || put.Ready? ==>
          NoDuplicates(put.data) && ToSet(put.data) <= store.issued && ToSet(put.data) !! start.issued)
  }

  ghost predicate CompletionIsCalm(s: State, lists: seq<seq<nat>>) {
    var c := s.completion;
    match c
    case Idle => lists == [] && s.store.overview == Open
    case SawObject(list, md, plan) => lists == [list] && Read(s.store, md, plan) && s.store.overview == Open
    case SawOverview(list, md, plan) => lists == [list] && Read(s.store, md, plan) && s.store.overview == Open
    case Marked(list, md, plan) => lists == [list] && Read(s.store, md, plan)
    case Listed(list, md, plan, snapshot) => lists == [list] && Read(s.store, md, plan) && snapshot == s.store.parts
    case Prepared(list, md, plan, snapshot, replaced) =>
      lists == [list] && Read(s.store, md, plan) && snapshot == s.store.parts
    case Cleanup(_, _, _, _) => false
  }

  /** What the completion has read of the current object is still so. */
  ghost predicate Read(store: Store, md: Option<seq<Location>>, plan: Plan) {
    md == MasterLocation(store) && plan == ProcessVersioningState(store)
  }

  /** The null key is as it was, unless the completion has copied the current object to it. */
  ghost predicate NullKeyIs(start: Store, s: State) {
    var c := s.completion;
    && s.store.nullKey == (if c.Prepared? && c.plan == Preserve then c.objMD else start.nullKey)
    && (c.Prepared? ==> c.replaced == DataToDelete(start.nullKey, c.objMD, c.plan))
  }

  ghost predicate Standing(s: State, events: seq<Event>, active: Option<nat>) {
    OneAtATime(s, active) && Traced(events, s) && CompletionIsCalm(s, Attempts(events))
  }

  ghost predicate InUpload(start: Store, s: State, events: seq<Event>, active: Option<nat>) {
    && Standing(s, events, active) && NullKeyIs(start, s)
    && (active.Some? ==> UpToDate(start, s.store, s.puts[active.value]))
    && Accounted(start, SettledState(s, active), UploadsOf(events))
  }

  lemma QuietIsSettled(s: State, active: Option<nat>)
    requires active.Some? ==> active.value in s.puts && IsQuiet(s.puts[active.value])
    ensures SettledState(s, active) == s.store
  {
    if active.Some? && s.puts[active.value].Deleting? {
      assert s.store.deleted + multiset(s.puts[active.value].todo) == s.store.deleted;
    }
  }

  lemma BeginMoves(start: Store, s: State, e: Event, t: State, lists: seq<seq<nat>>)
    requires (e.PutBegin? || e.CompleteReadObject?) && Step(s, e) == Some(t)
    requires CompletionIsCalm(s, lists) && NullKeyIs(start, s) && (e.PutBegin? ==> s.completion.Idle?)
    ensures t.store == s.store && NullKeyIs(start, t)
    ensures t.puts == if e.PutBegin? then s.puts[e.pid := Begun(e.kind, e.n)] else s.puts
    ensures CompletionIsCalm(t, lists + if e.CompleteReadObject? then [e.parts] else [])
  {
  }

  /** A request begins; no other one is under way. */
  lemma BeginStep(start: Store, s: State, events: seq<Event>, t: State, active: Option<nat>) returns (active': Option<nat>)
    requires events != [] && InUpload(start, s, events[..|events| - 1], active)
    requires var e := events[|events| - 1]; (e.PutBegin? || e.CompleteReadObject?) && Step(s, e) == Some(t) && Calm(s, e)
    requires Attempts(events) == Attempts(events[..|events| - 1])
               + if events[|events| - 1].CompleteReadObject? then [events[|events| - 1].parts] else []
    ensures InUpload(start, t, events, active')
  {
    var e := events[|events| - 1];
    BeginMoves(start, s, e, t, Attempts(events[..|events| - 1]));
    StepTraces(s, events, t);
    QuietIsSettled(s, active);
    active' := if e.PutBegin? then Some(e.pid) else None;
    WorkIsNoUpload(events);
    SameAccounts(start, SettledState(s, active), UploadsOf(events[..|events| - 1]), SettledState(t, active'), UploadsOf(events));
  }

  /** The steps of the request under way that leave the settled store as it is. */
  predicate KeepsSettled(e: Event) {
    e.PutReadPart? || e.PutWriteData? || e.PutReadFlag? || e.PutDeleteOld?
  }

  /** A step of a put-part request is one of the request under way. */
  lemma ActiveStep(s: State, events: seq<Event>, t: State, active: Option<nat>)
    requires events != [] && Standing(s, events[..|events| - 1], active)
    requires var e := events[|events| - 1]; (KeepsSettled(e) || e.PutStorePart?) && Step(s, e) == Some(t)
    requires Attempts(events) == Attempts(events[..|events| - 1])
    ensures active == Some(events[|events| - 1].pid) && s.store.overview == Open
    ensures Standing(t, events, active) && events[|events| - 1].pid in s.puts
  {
    var e := events[|events| - 1];
    assert e.pid in s.puts && !IsQuiet(s.puts[e.pid]);
    StepTraces(s, events, t);
  }

  lemma WriteSettles(start: Store, s: State, e: Event, t: State)
    requires e.PutWriteData? && Step(s, e) == Some(t) && start.issued <= s.store.issued
    requires UpToDate(start, s.store, s.puts[e.pid])
    ensures Settled(t.store, t.puts[e.pid]) == Settled(s.store, s.puts[e.pid])
    ensures UpToDate(start, t.store, t.puts[e.pid])
  {
    assert t.store.issued - ToSet(e.data) == s.store.issued;
  }

  lemma DeleteSettles(s: State, e: Event, t: State)
    requires e.PutDeleteOld? && Step(s, e) == Some(t)
    ensures Settled(t.store, t.puts[e.pid]) == Settled(s.store, s.puts[e.pid]) && t.puts[e.pid].Deleting?
  {
    var todo := s.puts[e.pid].todo;
    assert multiset{e.l} + multiset(todo - {e.l}) == multiset(todo);
    assert t.store.deleted + multiset(todo - {e.l}) == s.store.deleted + multiset(todo);
  }

  lemma SettledStays(start: Store, s: State, e: Event, t: State)
    requires KeepsSettled(e) && Step(s, e) == Some(t) && s.store.overview == Open && start.issued <= s.store.issued
    requires UpToDate(start, s.store, s.puts[e.pid])
    ensures Settled(t.store, t.puts[e.pid]) == Settled(s.store, s.puts[e.pid])
    ensures UpToDate(start, t.store, t.puts[e.pid])
  {
    if e.PutWriteData? {
      WriteSettles(start, s, e, t);
    } else if e.PutDeleteOld? {
      DeleteSettles(s, e, t);
    } else {
      ReadSettles(start, s, e, t);
    }
  }

  lemma ReadSettles(start: Store, s: State, e: Event, t: State)
    requires (e.PutReadPart? || e.PutReadFlag?) && Step(s, e) == Some(t) && s.store.overview == Open
    requires UpToDate(start, s.store, s.puts[e.pid])
    ensures Settled(t.store, t.puts[e.pid]) == Settled(s.store, s.puts[e.pid])
    ensures UpToDate(start, t.store, t.puts[e.pid])
  {
  }

  /** A put-part request does not touch the null key. */
  lemma NullKeyStays(start: Store, s: State, e: Event, t: State)
    requires (KeepsSettled(e) || e.PutStorePart?) && Step(s, e) == Some(t) && NullKeyIs(start, s)
    ensures NullKeyIs(start, t)
  {
  }

  lemma WorkIsNoUpload(events: seq<Event>)
    requires events != [] && !events[|events| - 1].PutStorePart?
    ensures UploadsOf(events) == UploadsOf(events[..|events| - 1])
  {
  }

  lemma WorkStep(start: Store, s: State, events: seq<Event>, t: State, active: Option<nat>)
    requires events != [] && InUpload(start, s, events[..|events| - 1], active)
    requires KeepsSettled(events[|events| - 1]) && Step(s, events[|events| - 1]) == Some(t)
    requires Attempts(events) == Attempts(events[..|events| - 1])
    ensures InUpload(start, t, events, active)
  {
    var e := events[|events| - 1];
    ActiveStep(s, events, t, active);
    NullKeyStays(start, s, e, t);
    SettledIsLess(s.store, s.puts[e.pid]);
    AccountedStarts(start, SettledState(s, active), UploadsOf(events[..|events| - 1]));
    SettledStays(start, s, e, t);
    WorkIsNoUpload(events);
    SameAccounts(start, SettledState(s, active), UploadsOf(events[..|events| - 1]), SettledState(t, active), UploadsOf(events));
  }

  lemma AccountedStarts(start: Store, store: Store, uploads: seq<PartUpload>)
    requires Accounted(start, store, uploads)
    ensures start.issued <= store.issued
  {
  }

  lemma SameAccounts(start: Store, store: Store, uploads: seq<PartUpload>, t: Store, uploads': seq<PartUpload>)
    requires Accounted(start, store, uploads) && t == store && uploads' == uploads
    ensures Accounted(start, t, uploads')
  {
  }

  lemma SettledIsLess(store: Store, put: Put)
    ensures Settled(store, put).issued <= store.issued && Settled(store, put).parts == store.parts
  {
  }

  /** The part is published: one more upload is accounted for. */
  lemma StoreSettles(start: Store, store: Store, put: Put, t: Store, put': Put)
    requires put.Ready? && UpToDate(start, store, put)
    requires t == store.(parts := store.parts[put.n := put.data])
    requires put' == if put.before.Some? then Stored(put.before.value) else Done
    ensures Settled(t, put') == PutEffect(Settled(store, put), put.n, put.data)
    ensures IsFresh(Settled(store, put), put.data)
  {
    assert store.issued - ToSet(put.data) + ToSet(put.data) == store.issued;
    if put.before.None? {
      assert Settled(store, put).deleted + multiset{} == t.deleted;
    }
  }

  lemma StoreIsUpload(s: State, events: seq<Event>, put: Put)
    requires events != [] && events[|events| - 1].PutStorePart? && put.Ready?
    requires var init, pid := events[..|events| - 1], events[|events| - 1].pid;
             Traced(init, s) && pid in s.puts && s.puts[pid] == put
    ensures UploadsOf(events) == UploadsOf(events[..|events| - 1]) + [PartUpload(put.n, put.data)]
  {
    assert TracedPut(events[..|events| - 1], events[|events| - 1].pid, put);
  }

  lemma StoreAccounts(start: Store, store: Store, put: Put, t: Store, put': Put, uploads: seq<PartUpload>)
    requires put.Ready? && UpToDate(start, store, put) && Accounted(start, Settled(store, put), uploads)
    requires t == store.(parts := store.parts[put.n := put.data])
    requires put' == if put.before.Some? then Stored(put.before.value) else Done
    requires forall l :: l in start.deleted ==> l in start.issued
    ensures Accounted(start, Settled(t, put'), uploads + [PartUpload(put.n, put.data)]) && UpToDate(start, t, put')
  {
    StoreSettles(start, store, put, t, put');
    PutAccounts(start, Settled(store, put), uploads, put.n, put.data);
    SameAccounts(start, PutEffect(Settled(store, put), put.n, put.data), uploads + [PartUpload(put.n, put.data)],
                 Settled(t, put'), uploads + [PartUpload(put.n, put.data)]);
  }

  lemma StoreMoves(s: State, e: Event, t: State)
    requires e.PutStorePart? && Step(s, e) == Some(t)
    ensures e.pid in s.puts && s.puts[e.pid].Ready? && e.pid in t.puts
    ensures var put := s.puts[e.pid];
            && t.store == s.store.(parts := s.store.parts[put.n := put.data])
            && t.puts[e.pid] == if put.before.Some? then Stored(put.before.value) else Done
  {
  }

  lemma StoreStep(start: Store, s: State, events: seq<Event>, t: State, active: Option<nat>)
    requires events != [] && InUpload(start, s, events[..|events| - 1], active)
    requires events[|events| - 1].PutStorePart? && Step(s, events[|events| - 1]) == Some(t)
    requires Attempts(events) == Attempts(events[..|events| - 1])
    requires forall l :: l in start.deleted ==> l in start.issued
    ensures InUpload(start, t, events, active)
  {
    var init, e := events[..|events| - 1], events[|events| - 1];
    StoreMoves(s, e, t);
    ActiveStep(s, events, t, active);
    NullKeyStays(start, s, e, t);
    StoreIsUpload(s, events, s.puts[e.pid]);
    StoreAccounts(start, s.store, s.puts[e.pid], t.store, t.puts[e.pid], UploadsOf(init));
  }

  /** The completion goes on, up to the listing. */
  predicate CompletionGoesOn(e: Event) {
    e.CompleteReadOverview? || e.CompleteMark? || e.CompleteList? || e.CompletePrepare?
  }

  lemma CompletionMoves(s: State, e: Event, t: State)
    requires CompletionGoesOn(e) && Step(s, e) == Some(t)
    ensures !s.completion.Idle? && t.puts == s.puts
    ensures t.store == s.store.(overview := t.store.overview, nullKey := t.store.nullKey)
  {
  }

  lemma CompletionIsStillCalm(s: State, e: Event, t: State, lists: seq<seq<nat>>)
    requires CompletionGoesOn(e) && Step(s, e) == Some(t) && CompletionIsCalm(s, lists)
    ensures CompletionIsCalm(t, lists)
  {
  }

  lemma CompletionStands(s: State, events: seq<Event>, t: State, active: Option<nat>)
    requires events != [] && Standing(s, events[..|events| - 1], active)
    requires CompletionGoesOn(events[|events| - 1]) && Step(s, events[|events| - 1]) == Some(t)
    requires Attempts(events) == Attempts(events[..|events| - 1])
    ensures Standing(t, events, None) && AllQuiet(s)
  {
    CompletionMoves(s, events[|events| - 1], t);
    CompletionIsStillCalm(s, events[|events| - 1], t, Attempts(events));
    StepTraces(s, events, t);
  }

  lemma CompletionNullKey(start: Store, s: State, e: Event, t: State)
    requires CompletionGoesOn(e) && Step(s, e) == Some(t) && NullKeyIs(start, s)
    ensures NullKeyIs(start, t)
  {
  }

  lemma CompletionStep(start: Store, s: State, events: seq<Event>, t: State, active: Option<nat>)
    requires events != [] && InUpload(start, s, events[..|events| - 1], active)
    requires CompletionGoesOn(events[|events| - 1]) && Step(s, events[|events| - 1]) == Some(t)
    requires Attempts(events) == Attempts(events[..|events| - 1])
    ensures InUpload(start, t, events, None)
  {
    CompletionMoves(s, events[|events| - 1], t);
    CompletionStands(s, events, t, active);
    CompletionNullKey(start, s, events[|events| - 1], t);
    QuietIsSettled(s, active);
    WorkIsNoUpload(events);
    OverviewDoesNotCount(start, s.store, t.store, UploadsOf(events[..|events| - 1]));
  }

  lemma OverviewDoesNotCount(start: Store, store: Store, t: Store, uploads: seq<PartUpload>)
    requires Accounted(start, store, uploads) && t == store.(overview := t.overview, nullKey := t.nullKey)
    ensures Accounted(start, t, uploads)
  {
  }

  // ----- the commit, and the books after it

  /** A completion that is no replay: the listed parts become the object, nothing else remains. */
  ghost function CompleteEffect(store: Store, replaced: set<Location>, list: seq<nat>, vid: nat): Store
    requires ValidList(list, store.parts)
  {
    Commit(store, vid, ProcessVersioningState(store), Locate(list, store.parts)).(
      overview := Absent,
      parts := map[],
      deleted := store.deleted + multiset(replaced) + multiset(ExtraLocations(list, store.parts)))
  }

  /** The data of an upload is not the data of an object that was there before. */
  lemma UploadIsNoReplay(s: State, store: Store, uploads: seq<PartUpload>, list: seq<nat>)
    requires Initial(s) && Accounted(s.store, store, uploads) && ValidList(list, store.parts)
    ensures !IsReplay(MasterLocation(store), Locate(list, store.parts))
  {
    var data := Locate(list, store.parts);
    assert MasterLocation(store) == MasterLocation(s.store);
    if MasterLocation(store).Some? {
      var v := store.master.value;
      forall l | l in store.versions[v].location
        ensures l !in data
      {
        assert v in s.store.versions && l in s.store.issued;
        if l in data {
          var n := LocateFrom(list, store.parts, l);
        }
      }
    }
  }

  lemma {:induction false} LocateDepends(list: seq<nat>, a: map<nat, seq<Location>>, b: map<nat, seq<Location>>)
    requires forall n <- list :: n in a && n in b && a[n] == b[n]
    ensures Locate(list, a) == Locate(list, b)
  {
    if list != [] {
      LocateDepends(list[1..], a, b);
    }
  }

  /** The books, once the completion is done. */
  ghost predicate Balanced(start: Store, store: Store, committed: seq<Location>) {
    && (forall l :: l in store.issued && l !in start.issued ==>
          store.deleted[l] == if l in committed then 0 else 1)
    && (forall l :: l in start.issued ==>
          store.deleted[l] == start.deleted[l] + if l in ReplacedBy(start) then 1 else 0)
  }

  lemma ReplacedIsOld(s: State)
    requires Initial(s)
    ensures ReplacedBy(s.store) <= s.store.issued
  {
    forall l | l in ReplacedBy(s.store)
      ensures l in s.store.issued
    {
      assert ProcessVersioningState(s.store) == ReplaceNullKey ==> InNullKey(s.store, l);
    }
  }

  lemma CompleteBalances(s: State, store: Store, uploads: seq<PartUpload>, list: seq<nat>, vid: nat)
    requires Initial(s) && Accounted(s.store, store, uploads) && ValidList(list, store.parts) && vid !in store.versions
    ensures Balanced(s.store, CompleteEffect(store, ReplacedBy(s.store), list, vid), Locate(list, store.parts))
  {
    var replaced, extra := ReplacedBy(s.store), ExtraLocations(list, store.parts);
    var t := CompleteEffect(store, replaced, list, vid);
    ReplacedIsOld(s);
    assert forall l :: t.deleted[l] == store.deleted[l] + (if l in replaced then 1 else 0) + (if l in extra then 1 else 0);
    forall l | l in store.issued && l !in s.store.issued
      ensures t.deleted[l] == if l in Locate(list, store.parts) then 0 else 1
    {
      if l in Locate(list, store.parts) {
        var n := LocateFrom(list, store.parts, l);
      } else if n :| n in store.parts && l in store.parts[n] {
        if n in list {
          LocateAll(list, store.parts, n, l);
        }
      }
    }
  }

  lemma ObjectIsLastUploads(start: Store, store: Store, uploads: seq<PartUpload>, list: seq<nat>)
    requires Accounted(start, store, uploads) && ValidList(list, store.parts)
    ensures forall n <- list :: n in LastUploads(uploads, list)
    ensures Locate(list, store.parts) == Locate(list, LastUploads(uploads, list))
  {
    forall n | n in list
      ensures n in LastUploads(uploads, list) && LastUploads(uploads, list)[n] == store.parts[n]
    {
      assert PartAt(store.parts, n) == LastUpload(uploads, n);
    }
    LocateDepends(list, store.parts, LastUploads(uploads, list));
  }

  /** The object that the completion leaves, beside the versions that it does not replace. */
  ghost predicate LeavesObject(start: Store, store: Store, vid: nat, committed: seq<Location>) {
    && store.overview == Absent && store.parts == map[] && store.master == Some(vid)
    && store.versions == (start.versions - Dropped(start))[vid := Version(start.versioning != Enabled, committed)]
    && store.nullKey == NullKeyAfter(start) && vid !in start.versions
    && (forall l <- committed :: l !in start.issued)
    && Balanced(start, store, committed)
  }

  lemma CompletionLeavesObject(s: State, store: Store, uploads: seq<PartUpload>, list: seq<nat>, vid: nat)
    requires Initial(s) && Accounted(s.store, store, uploads) && ValidList(list, store.parts) && vid !in store.versions
    requires ProcessVersioningState(store) == ReplaceNullKey || store.nullKey == NullKeyAfter(s.store)
    ensures LeavesObject(s.store, CompleteEffect(store, ReplacedBy(s.store), list, vid), vid, Locate(list, store.parts))
  {
    CompleteBalances(s, store, uploads, list, vid);
    forall l | l in Locate(list, store.parts)
      ensures l !in s.store.issued
    {
      var n := LocateFrom(list, store.parts, l);
    }
    assert Dropped(store) == Dropped(s.store) && ProcessVersioningState(store) == ProcessVersioningState(s.store);
  }

  /** A location that some version refers to. */
  ghost predicate Refers(store: Store, l: Location) {
    InNullKey(store, l) || exists v :: v in store.versions && l in store.versions[v].location
  }

  /** The store, once the cleanup has done all it has to do. */
  ghost function SettledCleanup(s: State): Store
    requires s.completion.Cleanup?
  {
    s.store.(overview := Absent, parts := map[],
             deleted := s.store.deleted + multiset(s.completion.replaced) + multiset(s.completion.extra))
  }

  ghost predicate Cleaning(start: Store, s: State, events: seq<Event>, list: seq<nat>, vid: nat) {
    && s.completion.Cleanup? && AllQuiet(s)
    && Attempts(events) == [list] && CompleteCommit(vid) in events
    && s.store.parts.Keys == s.completion.keys && (!s.completion.overviewKey ==> s.store.overview == Absent)
    && Books(start, SettledCleanup(s), UploadsOf(events), list, vid)
  }

  /** The object consists of the last upload of each listed part; each new location is in it or was
      deleted once, and of the older ones only the replaced object's were deleted, once. */
  ghost predicate Books(start: Store, store: Store, uploads: seq<PartUpload>, list: seq<nat>, vid: nat) {
    && (forall n <- list :: n in LastUploads(uploads, list))
    && LeavesObject(start, store, vid, Locate(list, LastUploads(uploads, list)))
  }

  lemma CommitBalances(s: State, u: State, t: State, uploads: seq<PartUpload>, list: seq<nat>, vid: nat)
    requires Initial(s) && Accounted(s.store, u.store, uploads)
    requires NullKeyIs(s.store, u) && u.completion.Prepared?
    requires var c := u.completion;
             c.list == list && c.snapshot == u.store.parts && Read(u.store, c.objMD, c.plan)
    requires Step(u, CompleteCommit(vid)) == Some(t)
    ensures t.completion.Cleanup? && t.completion.overviewKey && t.completion.keys == t.store.parts.Keys
    ensures Books(s.store, SettledCleanup(t), uploads, list, vid)
  {
    UploadIsNoReplay(s, u.store, uploads, list);
    assert u.completion.replaced == ReplacedBy(s.store);
    assert SettledCleanup(t) == CompleteEffect(u.store, ReplacedBy(s.store), list, vid);
    CompletionLeavesObject(s, u.store, uploads, list, vid);
    ObjectIsLastUploads(s.store, u.store, uploads, list);
  }

  lemma CommitStep(s: State, u: State, events: seq<Event>, t: State, active: Option<nat>) returns (list: seq<nat>, vid: nat)
    requires Initial(s) && events != [] && InUpload(s.store, u, events[..|events| - 1], active)
    requires events[|events| - 1].CompleteCommit? && Step(u, events[|events| - 1]) == Some(t)
    requires Attempts(events) == Attempts(events[..|events| - 1])
    ensures Cleaning(s.store, t, events, list, vid)
  {
    list, vid := u.completion.list, events[|events| - 1].vid;
    QuietIsSettled(u, active);
    CommitBalances(s, u, t, UploadsOf(events), list, vid);
    assert events[|events| - 1] in events;
  }

  predicate CleansUp(e: Event) {
    e.CompleteDeleteReplaced? || e.CompleteDeletePart? || e.CompleteDeleteOverview? || e.CompleteDeleteExtra?
  }

  lemma CleanupDataStays(s: State, e: Event, t: State)
    requires s.completion.Cleanup? && CleansUp(e) && Step(s, e) == Some(t)
    ensures t.completion.Cleanup? && SettledCleanup(t).deleted == SettledCleanup(s).deleted
  {
    var c, c' := s.completion, t.completion;
    match e
    case CompleteDeleteReplaced(l) =>
      assert multiset{l} + multiset(c.replaced - {l}) == multiset(c.replaced);
      assert t.store.deleted + multiset(c'.replaced) == s.store.deleted + multiset(c.replaced);
    case CompleteDeleteExtra(l) =>
      assert multiset{l} + multiset(c.extra - {l}) == multiset(c.extra);
      assert t.store.deleted + multiset(c.replaced) + multiset(c'.extra)
          == s.store.deleted + multiset(c.replaced) + multiset(c.extra);
    case _ =>
  }

  lemma CleanupStays(s: State, e: Event, t: State)
    requires s.completion.Cleanup? && CleansUp(e) && Step(s, e) == Some(t)
    ensures t.completion.Cleanup? && SettledCleanup(t) == SettledCleanup(s) && t.puts == s.puts
    ensures s.store.parts.Keys == s.completion.keys ==> t.store.parts.Keys == t.completion.keys
    ensures (!s.completion.overviewKey ==> s.store.overview == Absent) ==> (!t.completion.overviewKey ==> t.store.overview == Absent)
  {
    CleanupDataStays(s, e, t);
  }

  lemma QuietDoesNothing(s: State, e: Event)
    requires e.PutReadPart? || e.PutWriteData? || e.PutStorePart? || e.PutReadFlag? || e.PutDeleteOld?
    requires e.pid in s.puts ==> IsQuiet(s.puts[e.pid])
    ensures Step(s, e).None?
  {
  }

  /** While a completion cleans up, nothing else is under way. */
  lemma OnlyCleanup(s: State, e: Event)
    requires s.completion.Cleanup? && AllQuiet(s) && Calm(s, e) && Step(s, e).Some?
    ensures CleansUp(e)
  {
    if e.PutReadPart? || e.PutWriteData? || e.PutStorePart? || e.PutReadFlag? || e.PutDeleteOld? {
      QuietDoesNothing(s, e);
    }
  }

  lemma CleanupIsNoUpload(events: seq<Event>)
    requires events != [] && CleansUp(events[|events| - 1])
    ensures UploadsOf(events) == UploadsOf(events[..|events| - 1])
    ensures forall e :: e in events[..|events| - 1] ==> e in events
  {
  }

  lemma SameBooks(start: Store, store: Store, uploads: seq<PartUpload>, t: Store, uploads': seq<PartUpload>,
                  list: seq<nat>, vid: nat)
    requires Books(start, store, uploads, list, vid) && t == store && uploads' == uploads
    ensures Books(start, t, uploads', list, vid)
  {
  }

  lemma CleaningStep(start: Store, s: State, events: seq<Event>, t: State, list: seq<nat>, vid: nat)
    requires events != [] && Cleaning(start, s, events[..|events| - 1], list, vid)
    requires Step(s, events[|events| - 1]) == Some(t) && Calm(s, events[|events| - 1])
    requires Attempts(events) == Attempts(events[..|events| - 1])
               + if events[|events| - 1].CompleteReadObject? then [events[|events| - 1].parts] else []
    ensures Cleaning(start, t, events, list, vid)
  {
    var init, e := events[..|events| - 1], events[|events| - 1];
    OnlyCleanup(s, e);
    CleanupStays(s, e, t);
    CleanupIsNoUpload(events);
    SameBooks(start, SettledCleanup(s), UploadsOf(init), SettledCleanup(t), UploadsOf(events), list, vid);
  }

  // ----- all undisturbed runs

  lemma UploadStep(s: State, u: State, events: seq<Event>, t: State, active: Option<nat>) returns (active': Option<nat>)
    requires Initial(s) && events != [] && InUpload(s.store, u, events[..|events| - 1], active)
    requires var e := events[|events| - 1]; Step(u, e) == Some(t) && Calm(u, e) && !e.CompleteCommit?
    requires Attempts(events) == Attempts(events[..|events| - 1])
               + if events[|events| - 1].CompleteReadObject? then [events[|events| - 1].parts] else []
    ensures InUpload(s.store, t, events, active')
  {
    var e := events[|events| - 1];
    active' := active;
    if e.PutBegin? || e.CompleteReadObject? {
      active' := BeginStep(s.store, u, events, t, active);
    } else if KeepsSettled(e) {
      WorkStep(s.store, u, events, t, active);
    } else if e.PutStorePart? {
      StoreStep(s.store, u, events, t, active);
    } else {
      CompletionStep(s.store, u, events, t, active);
      active' := None;
    }
  }

  /** Where an undisturbed run stands. */
  ghost predicate InProgress(s: State, events: seq<Event>, t: State) {
    || (exists active :: InUpload(s.store, t, events, active))
    || (exists list, vid :: Cleaning(s.store, t, events, list, vid))
  }

  lemma {:induction false} RunBalances(s: State, events: seq<Event>, t: State)
    requires Initial(s) && Run(s, events) == Some(t) && Undisturbed(s, events)
    ensures InProgress(s, events, t)
    decreases |events|
  {
    if events == [] {
      assert InUpload(s.store, t, events, None);
    } else {
      var init, e := events[..|events| - 1], events[|events| - 1];
      var u := Run(s, init).value;
      RunLast(s, events);
      RunBalances(s, init, u);
      if active :| InUpload(s.store, u, init, active) {
        if e.CompleteCommit? {
          var list, vid := CommitStep(s, u, events, t, active);
        } else {
          var active' := UploadStep(s, u, events, t, active);
        }
      } else {
        var list, vid :| Cleaning(s.store, u, init, list, vid);
        CleaningStep(s.store, u, events, t, list, vid);
      }
    }
  }

  /** In every undisturbed run of any uploads and overwrites of parts that ends with a completion that
      has done all it had to do: the object consists of the last upload of each listed part, in list
      order; every location issued for the upload is in the object or deleted exactly once, and never
      both; of the rest only the replaced object is deleted, once; nothing else of the upload is left. */
  lemma NothingLeaks(s: State, events: seq<Event>, t: State) returns (list: seq<nat>, vid: nat)
    requires Initial(s) && Run(s, events) == Some(t) && Undisturbed(s, events)
    requires t.completion == Cleanup({}, {}, false, {})
    ensures Attempts(events) == [list] && CompleteCommit(vid) in events
    ensures Books(s.store, t.store, UploadsOf(events), list, vid)
    ensures t.store.master == Some(vid) && vid in t.store.versions
    ensures MadeOf(t.store.versions[vid].location, list, LastUploads(UploadsOf(events), list))
    ensures t.store.versions[vid].isNull <==> s.store.versioning != Enabled
  {
    RunBalances(s, events, t);
    assert !exists active :: InUpload(s.store, t, events, active);
    list, vid :| Cleaning(s.store, t, events, list, vid);
    assert t.store.parts == map[];
    assert t.store.deleted + multiset({}) + multiset({}) == t.store.deleted;
    assert SettledCleanup(t) == t.store;
    var parts := LastUploads(UploadsOf(events), list);
    LocateExactly(list, parts, Locate(list, parts));
  }

  /** No older data is lost either: what a version referred to is still referred to by one, and not
      deleted, or it was deleted once. The one exception is a null key that is overwritten by the copy of
      a null version: nothing refers to its data, and nothing deletes it. */
  lemma OldDataIsKept(s: State, events: seq<Event>, t: State, l: Location)
    requires Initial(s) && Run(s, events) == Some(t) && Undisturbed(s, events)
    requires t.completion == Cleanup({}, {}, false, {})
    requires Refers(s.store, l)
    ensures if InNullKey(s.store, l) && MasterIsNull(s.store) && s.store.versioning == Enabled
            then !Refers(t.store, l) && t.store.deleted[l] == 0
            else t.store.deleted[l] == if Refers(t.store, l) then 0 else 1
  {
    var list, vid := NothingLeaks(s, events, t);
    OldDataStays(s, t.store, vid, Locate(list, LastUploads(UploadsOf(events), list)), l);
  }

  lemma OldDataStays(s: State, store: Store, vid: nat, committed: seq<Location>, l: Location)
    requires Initial(s) && LeavesObject(s.store, store, vid, committed)
    requires Refers(s.store, l)
    ensures if InNullKey(s.store, l) && ProcessVersioningState(s.store) == Preserve
            then !Refers(store, l) && store.deleted[l] == 0
            else store.deleted[l] == if Refers(store, l) then 0 else 1
  {
    if InNullKey(s.store, l) {
      assert forall v :: v in s.store.versions ==> l !in s.store.versions[v].location;
    } else {
      var v :| v in s.store.versions && l in s.store.versions[v].location;
      assert forall w :: w in s.store.versions && w != v ==> l !in s.store.versions[w].location;
      if v !in Dropped(s.store) {
        assert v in store.versions && l in store.versions[v].location;
      }
    }
  }

  // ----- there are such runs

  ghost predicate CalmRun(s: State, events: seq<Event>, t: State) {
    Run(s, events) == Some(t) && Undisturbed(s, events)
  }

  lemma CalmNext(s: State, events: seq<Event>, t: State, e: Event, u: State) returns (more: seq<Event>)
    requires CalmRun(s, events, t) && Step(t, e) == Some(u) && Calm(t, e)
    ensures CalmRun(s, more, u)
  {
    more := events + [e];
    assert more[..|more| - 1] == events;
    RunLast(s, more);
  }

  lemma {:induction false} OldDataCanGo(s: State, events: seq<Event>, t: State, pid: nat) returns (more: seq<Event>, u: State)
    requires CalmRun(s, events, t) && pid in t.puts && t.puts[pid].Deleting?
    ensures CalmRun(s, more, u) && u.puts == t.puts[pid := Deleting({})] && u.completion == t.completion
    ensures u.store == t.store.(deleted := u.store.deleted)
    decreases t.puts[pid].todo
  {
    more, u := events, t;
    if t.puts[pid].todo != {} {
      var l :| l in t.puts[pid].todo;
      var next := Step(t, PutDeleteOld(pid, l)).value;
      more := CalmNext(s, events, t, PutDeleteOld(pid, l), next);
      more, u := OldDataCanGo(s, more, next, pid);
      assert next.puts[pid := Deleting({})] == t.puts[pid := Deleting({})];
    } else {
      assert t.puts[pid := Deleting({})] == t.puts;
    }
  }

  /** From every quiet state, any part can be uploaded or copied undisturbed, and is then stored. */
  lemma PutCanRun(s: State, events: seq<Event>, t: State, pid: nat, kind: PutKind, n: nat, data: seq<Location>)
    returns (more: seq<Event>, u: State)
    requires CalmRun(s, events, t) && AllQuiet(t) && t.completion == Idle && t.store.overview == Open
    requires pid !in t.puts && 1 <= n <= MAX_PART_NUMBER && IsFresh(t.store, data)
    ensures CalmRun(s, more, u) && AllQuiet(u) && u.completion == Idle && u.store.overview == Open
    ensures u.store.parts == t.store.parts[n := data] && u.store.issued == t.store.issued + ToSet(data)
    ensures u.puts.Keys == t.puts.Keys + {pid}
  {
    u := Step(t, PutBegin(pid, kind, n)).value;
    more := CalmNext(s, events, t, PutBegin(pid, kind, n), u);
    more, u := PrepareCanRun(s, more, u, pid, kind, n, data);
    var before := u.puts[pid].before;
    var stored := Step(u, PutStorePart(pid)).value;
    more := CalmNext(s, more, u, PutStorePart(pid), stored);
    u := stored;
    if before.Some? {
      var told := Step(u, PutReadFlag(pid)).value;
      more := CalmNext(s, more, u, PutReadFlag(pid), told);
      more, u := OldDataCanGo(s, more, told, pid);
    }
  }

  lemma PrepareCanRun(s: State, events: seq<Event>, t: State, pid: nat, kind: PutKind, n: nat, data: seq<Location>)
    returns (more: seq<Event>, u: State)
    requires CalmRun(s, events, t) && pid in t.puts && t.puts[pid] == Begun(kind, n) && IsFresh(t.store, data)
    ensures CalmRun(s, more, u) && u.completion == t.completion
    ensures u.puts == t.puts[pid := Ready(n, PartAt(t.store.parts, n), data)]
    ensures u.store == t.store.(issued := t.store.issued + ToSet(data))
  {
    var first := if kind == Upload then PutReadPart(pid) else PutWriteData(pid, data);
    var second := if kind == Upload then PutWriteData(pid, data) else PutReadPart(pid);
    var mid := Step(t, first).value;
    more := CalmNext(s, events, t, first, mid);
    u := Step(mid, second).value;
    more := CalmNext(s, more, mid, second, u);
    assert u.puts == t.puts[pid := Ready(n, PartAt(t.store.parts, n), data)];
  }

  /** From every quiet state, a completion with a valid list can run to its end undisturbed. */
  lemma CompletionCanRun(s: State, events: seq<Event>, t: State, list: seq<nat>, vid: nat) returns (more: seq<Event>, u: State)
    requires CalmRun(s, events, t) && AllQuiet(t) && t.completion == Idle && t.store.overview == Open
    requires ValidList(list, t.store.parts) && vid !in t.store.versions
    ensures CalmRun(s, more, u) && u.completion == Cleanup({}, {}, false, {})
  {
    more, u := ListingCanRun(s, events, t, list);
    var prepared := Step(u, CompletePrepare).value;
    more := CalmNext(s, more, u, CompletePrepare, prepared);
    u := Step(prepared, CompleteCommit(vid)).value;
    more := CalmNext(s, more, prepared, CompleteCommit(vid), u);
    more, u := CleanupCanRun(s, more, u);
  }

  lemma ListingCanRun(s: State, events: seq<Event>, t: State, list: seq<nat>) returns (more: seq<Event>, u: State)
    requires CalmRun(s, events, t) && AllQuiet(t) && t.completion == Idle && t.store.overview == Open
    ensures CalmRun(s, more, u) && u == AfterListing(t, list)
  {
    var s1 := Step(t, CompleteReadObject(list)).value;
    more := CalmNext(s, events, t, CompleteReadObject(list), s1);
    var s2 := Step(s1, CompleteReadOverview).value;
    more := CalmNext(s, more, s1, CompleteReadOverview, s2);
    var s3 := Step(s2, CompleteMark).value;
    more := CalmNext(s, more, s2, CompleteMark, s3);
    u := Step(s3, CompleteList).value;
    more := CalmNext(s, more, s3, CompleteList, u);
  }

  function Work(c: Completion): set<Event>
    requires c.Cleanup?
  {
    (set l | l in c.replaced :: CompleteDeleteReplaced(l)) + (set n | n in c.keys :: CompleteDeletePart(n))
    + (if c.overviewKey then {CompleteDeleteOverview} else {}) + (set l | l in c.extra :: CompleteDeleteExtra(l))
  }

  lemma {:induction false} CleanupCanRun(s: State, events: seq<Event>, t: State) returns (more: seq<Event>, u: State)
    requires CalmRun(s, events, t) && t.completion.Cleanup?
    ensures CalmRun(s, more, u) && u.completion == Cleanup({}, {}, false, {})
    decreases Work(t.completion)
  {
    var c := t.completion;
    if Work(c) == {} {
      NoWorkLeft(c);
      more, u := events, t;
    } else {
      var e := NextWork(t);
      var next := Step(t, e).value;
      WorkShrinks(t, e, next);
      more := CalmNext(s, events, t, e, next);
      more, u := CleanupCanRun(s, more, next);
    }
  }

  lemma NoWorkLeft(c: Completion)
    requires c.Cleanup? && Work(c) == {}
    ensures c == Cleanup({}, {}, false, {})
  {
    assert forall l :: l in c.replaced ==> CompleteDeleteReplaced(l) in Work(c);
    assert forall n :: n in c.keys ==> CompleteDeletePart(n) in Work(c);
    assert forall l :: l in c.extra ==> CompleteDeleteExtra(l) in Work(c);
  }

  lemma LastWork(c: Completion)
    requires c.Cleanup? && Work(c) != {} && c.replaced == {} && c.keys == {} && !c.overviewKey
    ensures c.extra != {}
  {
  }

  lemma NextWork(t: State) returns (e: Event)
    requires t.completion.Cleanup? && Work(t.completion) != {}
    ensures CleansUp(e) && e in Work(t.completion) && Step(t, e).Some?
  {
    var c := t.completion;
    if c.replaced != {} {
      var l :| l in c.replaced;
      e := CompleteDeleteReplaced(l);
    } else if c.keys != {} {
      var n :| n in c.keys;
      e := CompleteDeletePart(n);
    } else if c.overviewKey {
      e := CompleteDeleteOverview;
    } else {
      LastWork(c);
      var l :| l in c.extra;
      e := CompleteDeleteExtra(l);
    }
  }

  lemma WorkShrinks(t: State, e: Event, u: State)
    requires t.completion.Cleanup? && CleansUp(e) && e in Work(t.completion) && Step(t, e) == Some(u)
    ensures u.completion.Cleanup? && Work(u.completion) < Work(t.completion)
  {
    assert e !in Work(u.completion);
    assert forall x :: x in Work(u.completion) ==> x in Work(t.completion);
  }
}
