/** The multipart-upload protocol as a state machine: one event for every metadata or data call
    that a request makes, so that requests interleave at exactly the points where they do. */
module MpuModel {
  import opened Wrappers
  import opened Sequences
  import opened Locations

  /** The overview entry of the upload in the shadow bucket; `Completing` carries the
      `completeInProgress` flag. */
  datatype Overview = Absent | Open | Completing

  /** The versioning status of the destination bucket. */
  datatype Versioning = NotConfigured | Enabled | Suspended

  /** A version of the destination object. `isNull` covers a master without a version id. */
  datatype Version = Version(isNull: bool, location: seq<Location>)

  /** What writing a new version will do to the current object and to the null key. */
  datatype Plan = Replace | Preserve | Add | ReplaceNullKey

  /** Everything that requests share. `master` names the current version of the object; a null version
      that is current is kept in the master key alone. `nullKey` is the location of the entry under
      the null key, and `deleted` counts how often each location was deleted. */
  datatype Store = Store(
    overview: Overview,
    parts: map<nat, seq<Location>>,
    versions: map<nat, Version>,
    master: Option<nat>,
    nullKey: Option<seq<Location>>,
    versioning: Versioning,
    issued: set<Location>,
    deleted: multiset<Location>)

  /** A part is uploaded from the request body, or copied from another object. */
  datatype PutKind = Upload | Copy

  /** How far a put-part request has come. A request that fails just takes no further event. */
  datatype Put =
    | Begun(kind: PutKind, n: nat)
    | SawPart(n: nat, before: Option<seq<Location>>)
    | Copied(n: nat, data: seq<Location>)
    | Ready(n: nat, before: Option<seq<Location>>, data: seq<Location>)
    | Stored(replacedPart: seq<Location>)
    | Deleting(todo: set<Location>)
    | Done

  /** How far the completion request has come; completions of one upload run one at a time. */
  datatype Completion =
    | Idle
    | SawObject(list: seq<nat>, objMD: Option<seq<Location>>, plan: Plan)
    | SawOverview(list: seq<nat>, objMD: Option<seq<Location>>, plan: Plan)
    | Marked(list: seq<nat>, objMD: Option<seq<Location>>, plan: Plan)
    | Listed(list: seq<nat>, objMD: Option<seq<Location>>, plan: Plan, snapshot: map<nat, seq<Location>>)
    | Prepared(list: seq<nat>, objMD: Option<seq<Location>>, plan: Plan, snapshot: map<nat, seq<Location>>,
               replaced: set<Location>)
    | Cleanup(replaced: set<Location>, keys: set<nat>, overviewKey: bool, extra: set<Location>)

  /** From the first read of a completion to its commit. */
  predicate Active(c: Completion) {
    !c.Idle? && !c.Cleanup?
  }

  predicate HasListed(c: Completion) {
    c.Listed? || c.Prepared?
  }

  datatype State = State(store: Store, puts: map<nat, Put>, completion: Completion)

  datatype Event =
    | PutBegin(pid: nat, kind: PutKind, n: nat)
    | PutReadPart(pid: nat)
    | PutWriteData(pid: nat, data: seq<Location>)
    | PutStorePart(pid: nat)
    | PutReadFlag(pid: nat)
    | PutDeleteOld(pid: nat, l: Location)
    | CompleteReadObject(parts: seq<nat>)
    | CompleteReadOverview
    | CompleteMark
    | CompleteList
    | CompletePrepare
    | CompleteCommit(vid: nat)
    | CompleteDeleteReplaced(l: Location)
    | CompleteDeletePart(n: nat)
    | CompleteDeleteOverview
    | CompleteDeleteExtra(l: Location)
    | CompleteStop
    | SetVersioning(status: Versioning)
    | OtherPut(vid: nat, data: seq<Location>)

  const MAX_PART_NUMBER := 10000

  /** The data service hands out locations that were never handed out before. */
  predicate IsFresh(store: Store, data: seq<Location>) {
    NoDuplicates(data) && forall l <- data :: l !in store.issued
  }

  function PartAt(parts: map<nat, seq<Location>>, n: nat): Option<seq<Location>> {
    if n in parts then Some(parts[n]) else None
  }

  // ----- the parts a completion asks for

  /** The locations of the listed parts, in list order. */
  function Locate(list: seq<nat>, parts: map<nat, seq<Location>>): seq<Location>
    requires forall n <- list :: n in parts
  {
    if list == [] then [] else parts[list[0]] + Locate(list[1..], parts)
  }

  /** How many locations come before the k-th listed part. */
  function Offset(list: seq<nat>, parts: map<nat, seq<Location>>, k: nat): nat
    requires k <= |list| && forall n <- list :: n in parts
  {
    if k == 0 then 0 else Offset(list, parts, k - 1) + |parts[list[k - 1]]|
  }

  /** The listed parts, one after the other in list order, and nothing else. */
  predicate MadeOf(data: seq<Location>, list: seq<nat>, parts: map<nat, seq<Location>>) {
    && (forall n <- list :: n in parts)
    && |data| == Offset(list, parts, |list|)
    && forall k: nat :: k < |list| ==> StandsAt(data, list, parts, k)
  }

  predicate StandsAt(data: seq<Location>, list: seq<nat>, parts: map<nat, seq<Location>>, k: nat)
    requires k < |list| && forall n <- list :: n in parts
  {
    var from := Offset(list, parts, k);
    from + |parts[list[k]]| <= |data| && data[from..from + |parts[list[k]]|] == parts[list[k]]
  }

  lemma {:induction false} LocateJoins(a: seq<nat>, b: seq<nat>, parts: map<nat, seq<Location>>)
    requires forall n <- a + b :: n in parts
    ensures Locate(a + b, parts) == Locate(a, parts) + Locate(b, parts)
  {
    assert forall n :: n in a || n in b ==> n in a + b;
    if a == [] {
      assert a + b == b;
    } else {
      assert (a + b)[0] == a[0] && (a + b)[1..] == a[1..] + b;
      LocateJoins(a[1..], b, parts);
    }
  }

  lemma LocateOne(n: nat, parts: map<nat, seq<Location>>)
    requires n in parts
    ensures Locate([n], parts) == parts[n]
  {
    assert [n][1..] == [];
  }

  lemma {:induction false} LengthUpTo(list: seq<nat>, parts: map<nat, seq<Location>>, k: nat)
    requires k <= |list| && forall n <- list :: n in parts
    ensures |Locate(list[..k], parts)| == Offset(list, parts, k)
  {
    if k > 0 {
      LengthUpTo(list, parts, k - 1);
      assert list[..k] == list[..k - 1] + [list[k - 1]];
      LocateJoins(list[..k - 1], [list[k - 1]], parts);
      LocateOne(list[k - 1], parts);
    }
  }

  lemma {:induction false} PartStands(list: seq<nat>, parts: map<nat, seq<Location>>, k: nat)
    requires k < |list| && forall n <- list :: n in parts
    ensures StandsAt(Locate(list, parts), list, parts, k)
  {
    var before, part, after := list[..k], [list[k]], list[k + 1..];
    assert before + part + after == list;
    LocateJoins(before + part, after, parts);
    LocateJoins(before, part, parts);
    LocateOne(list[k], parts);
    LengthUpTo(list, parts, k);
  }

  lemma {:induction false} SameUpTo(list: seq<nat>, parts: map<nat, seq<Location>>, a: seq<Location>, b: seq<Location>, k: nat)
    requires k <= |list| && MadeOf(a, list, parts) && MadeOf(b, list, parts)
    ensures Offset(list, parts, k) <= |a| && Offset(list, parts, k) <= |b|
    ensures a[..Offset(list, parts, k)] == b[..Offset(list, parts, k)]
  {
    if k > 0 {
      SameUpTo(list, parts, a, b, k - 1);
      var from, to := Offset(list, parts, k - 1), Offset(list, parts, k);
      assert StandsAt(a, list, parts, k - 1) && StandsAt(b, list, parts, k - 1);
      assert a[..to] == a[..from] + a[from..to] && b[..to] == b[..from] + b[from..to];
    }
  }

  /** What `Locate` gives is made of the listed parts, and nothing else is. */
  lemma {:induction false} LocateExactly(list: seq<nat>, parts: map<nat, seq<Location>>, data: seq<Location>)
    requires forall n <- list :: n in parts
    ensures data == Locate(list, parts) <==> MadeOf(data, list, parts)
  {
    var located := Locate(list, parts);
    forall k: nat | k < |list|
      ensures StandsAt(located, list, parts, k)
    {
      PartStands(list, parts, k);
    }
    LengthUpTo(list, parts, |list|);
    assert list[..|list|] == list;
    if MadeOf(data, list, parts) {
      SameUpTo(list, parts, data, located, |list|);
    }
  }

  /** The locations of the stored parts that the list leaves out. */
  function ExtraLocations(list: seq<nat>, parts: map<nat, seq<Location>>): set<Location> {
    set n, l | n in parts && n !in list && l in parts[n] :: l
  }

  /** The list names stored parts in ascending order. A wrong ETag or a part that is too small
      also rejects a list; the machine has that as a completion that stops here. */
  predicate ValidList(list: seq<nat>, parts: map<nat, seq<Location>>) {
    list != [] && Ascending(list) && forall n <- list :: n in parts
  }

  // ----- what writing the new object does to the versions of its key

  /** The current object, as the read at the start of a completion returns it. */
  function MasterLocation(store: Store): Option<seq<Location>> {
    if store.master.Some? && store.master.value in store.versions
    then Some(store.versions[store.master.value].location) else None
  }

  predicate MasterIsNull(store: Store) {
    store.master.Some? && store.master.value in store.versions && store.versions[store.master.value].isNull
  }

  /** processVersioningState: what the versioning status and the current object ask for. */
  function ProcessVersioningState(store: Store): Plan {
    match store.versioning
    case NotConfigured => Replace
    case Enabled => if MasterIsNull(store) then Preserve else Add
    case Suspended => if MasterIsNull(store) then Replace else ReplaceNullKey
  }

  /** The writes ahead of the new version: a null version that is current is copied to the null key. */
  function Prepare(store: Store, objMD: Option<seq<Location>>, plan: Plan): Store {
    if plan == Preserve then store.(nullKey := objMD) else store
  }

  /** `options.dataToDelete`: the data of the current object, or that of the null key. */
  function DataToDelete(nullKey: Option<seq<Location>>, objMD: Option<seq<Location>>, plan: Plan): set<Location> {
    if plan == Replace && objMD.Some? then ToSet(objMD.value)
    else if plan == ReplaceNullKey && nullKey.Some? then ToSet(nullKey.value)
    else {}
  }

  /** The completion finds its own earlier commit: the current object shares a location. */
  ghost predicate IsReplay(objMD: Option<seq<Location>>, data: seq<Location>) {
    objMD.Some? && !NoSharedKey(Current(objMD.value), data)
  }

  /** The versions that are gone once the master key is written: a null version that was current. */
  function Dropped(store: Store): set<nat> {
    if MasterIsNull(store) then {store.master.value} else {}
  }

  function Commit(store: Store, vid: nat, plan: Plan, data: seq<Location>): Store {
    store.(versions := (store.versions - Dropped(store))[vid := Version(plan == Replace || plan == ReplaceNullKey, data)],
           master := Some(vid),
           nullKey := if plan == ReplaceNullKey then None else store.nullKey)
  }

  /** Another write of the key, from the reading of the current object to the deletion of what it replaces. */
  function WriteOther(store: Store, vid: nat, data: seq<Location>): Store {
    var plan, objMD := ProcessVersioningState(store), MasterLocation(store);
    Commit(Prepare(store, objMD, plan), vid, plan, data).(
      issued := store.issued + ToSet(data),
      deleted := store.deleted + multiset(DataToDelete(store.nullKey, objMD, plan)))
  }

  // ----- the machine

  ghost function StepPut(s: State, e: Event): Option<State>
    requires e.PutReadPart? || e.PutWriteData? || e.PutStorePart? || e.PutReadFlag? || e.PutDeleteOld?
  {
    if e.pid !in s.puts then None else
    var put := s.puts[e.pid];
    match e
    case PutReadPart(pid) =>
      if put.Begun? && put.kind == Upload then
        Some(s.(puts := s.puts[pid := SawPart(put.n, PartAt(s.store.parts, put.n))]))
      else if put.Copied? then
        Some(s.(puts := s.puts[pid := Ready(put.n, PartAt(s.store.parts, put.n), put.data)]))
      else None
    case PutWriteData(pid, data) =>
      if !IsFresh(s.store, data) then None else
      var store := s.store.(issued := s.store.issued + ToSet(data));
      if put.Begun? && put.kind == Copy then
        Some(s.(store := store, puts := s.puts[pid := Copied(put.n, data)]))
      else if put.SawPart? then
        Some(s.(store := store, puts := s.puts[pid := Ready(put.n, put.before, data)]))
      else None
    case PutStorePart(pid) =>
      if put.Ready? then
        Some(s.(store := s.store.(parts := s.store.parts[put.n := put.data]),
                puts := s.puts[pid := if put.before.Some? then Stored(put.before.value) else Done]))
      else None
    case PutReadFlag(pid) =>
      if put.Stored? then
        Some(s.(puts := s.puts[pid := if s.store.overview == Open then Deleting(ToSet(put.replacedPart)) else Done]))
      else None
    case PutDeleteOld(pid, l) =>
      if put.Deleting? && l in put.todo then
        Some(s.(store := s.store.(deleted := s.store.deleted + multiset{l}),
                puts := s.puts[pid := Deleting(put.todo - {l})]))
      else None
  }

  ghost function StepComplete(s: State, e: Event): Option<State> {
    var c := s.completion;
    match e
    case CompleteReadObject(parts) =>
      if c.Idle? then Some(s.(completion := SawObject(parts, MasterLocation(s.store), ProcessVersioningState(s.store)))) else None
    case CompleteReadOverview =>
      if c.SawObject? && s.store.overview != Absent then
        Some(s.(completion := SawOverview(c.list, c.objMD, c.plan)))
      else None
    case CompleteMark =>
      if c.SawOverview? then
        Some(s.(store := s.store.(overview := Completing), completion := Marked(c.list, c.objMD, c.plan)))
      else None
    case CompleteList =>
      if c.Marked? then Some(s.(completion := Listed(c.list, c.objMD, c.plan, s.store.parts))) else None
    case CompletePrepare =>
      if c.Listed? && ValidList(c.list, c.snapshot) then
        Some(s.(store := Prepare(s.store, c.objMD, c.plan),
                completion := Prepared(c.list, c.objMD, c.plan, c.snapshot,
                                       DataToDelete(s.store.nullKey, c.objMD, c.plan))))
      else None
    case CompleteCommit(vid) =>
      if !(c.Prepared? && ValidList(c.list, c.snapshot) && vid !in s.store.versions) then None else
      var data := Locate(c.list, c.snapshot);
      var extra := ExtraLocations(c.list, c.snapshot);
      if IsReplay(c.objMD, data) then
        Some(s.(completion := Cleanup({}, c.snapshot.Keys, true, extra)))
      else
        Some(s.(store := Commit(s.store, vid, c.plan, data),
                completion := Cleanup(c.replaced, c.snapshot.Keys, true, extra)))
    case CompleteDeleteReplaced(l) =>
      if c.Cleanup? && l in c.replaced then
        Some(s.(store := s.store.(deleted := s.store.deleted + multiset{l}),
                completion := c.(replaced := c.replaced - {l})))
      else None
    case CompleteDeletePart(n) =>
      if c.Cleanup? && c.replaced == {} && n in c.keys then
        Some(s.(store := s.store.(parts := s.store.parts - {n}), completion := c.(keys := c.keys - {n})))
      else None
    case CompleteDeleteOverview =>
      if c.Cleanup? && c.replaced == {} && c.overviewKey then
        Some(s.(store := s.store.(overview := Absent), completion := c.(overviewKey := false)))
      else None
    case CompleteDeleteExtra(l) =>
      if c.Cleanup? && c.replaced == {} && c.keys == {} && !c.overviewKey && l in c.extra then
        Some(s.(store := s.store.(deleted := s.store.deleted + multiset{l}),
                completion := c.(extra := c.extra - {l})))
      else None
    case CompleteStop => Some(s.(completion := Idle))
    case _ => None
  }

  /** One call. `None` when the event cannot happen in this state. */
  ghost function Step(s: State, e: Event): Option<State> {
    match e
    case PutBegin(pid, kind, n) =>
      if pid !in s.puts && s.store.overview != Absent && 1 <= n <= MAX_PART_NUMBER then
        Some(s.(puts := s.puts[pid := Begun(kind, n)]))
      else None
    case PutReadPart(_) => StepPut(s, e)
    case PutWriteData(_, _) => StepPut(s, e)
    case PutStorePart(_) => StepPut(s, e)
    case PutReadFlag(_) => StepPut(s, e)
    case PutDeleteOld(_, _) => StepPut(s, e)
    case SetVersioning(status) =>
      if status != NotConfigured then Some(s.(store := s.store.(versioning := status))) else None
    case OtherPut(vid, data) =>
      if IsFresh(s.store, data) && vid !in s.store.versions then Some(s.(store := WriteOther(s.store, vid, data)))
      else None
    case _ => StepComplete(s, e)
  }

  /** A whole run, event by event. `None` when some event cannot happen. */
  ghost function Run(s: State, events: seq<Event>): Option<State>
    decreases |events|
  {
    if events == [] then Some(s)
    else match Step(s, events[0])
      case None => None
      case Some(next) => Run(next, events[1..])
  }

  lemma {:induction false} RunSplits(s: State, a: seq<Event>, b: seq<Event>)
    requires Run(s, a).Some?
    ensures Run(s, a + b) == Run(Run(s, a).value, b)
    decreases |a|
  {
    if a == [] {
      assert a + b == b;
    } else {
      assert (a + b)[0] == a[0] && (a + b)[1..] == a[1..] + b;
      RunSplits(Step(s, a[0]).value, a[1..], b);
    }
  }

  // ----- the start of an upload, and what the protocol promises

  predicate SeparateVersions(versions: map<nat, Version>) {
    && (forall v :: v in versions ==> NoDuplicates(versions[v].location))
    && (forall v, w, l :: v in versions && w in versions && v != w && l in versions[v].location
          ==> l !in versions[w].location)
  }

  predicate InNullKey(store: Store, l: Location) {
    store.nullKey.Some? && l in store.nullKey.value
  }

  /** An upload was just initiated; the key may already hold any number of versions, and one under the
      null key. The current object of a bucket without versioning is a null version. */
  ghost predicate Initial(s: State) {
    && s.puts == map[] && s.completion == Idle
    && s.store.overview == Open && s.store.parts == map[]
    && SeparateVersions(s.store.versions)
    && (s.store.master.Some? ==> s.store.master.value in s.store.versions)
    && (s.store.versioning == NotConfigured && s.store.master.Some? ==> MasterIsNull(s.store))
    && (forall v, l :: v in s.store.versions && l in s.store.versions[v].location ==>
          l in s.store.issued && l !in s.store.deleted && !InNullKey(s.store, l))
    && (forall l :: InNullKey(s.store, l) ==> l in s.store.issued && l !in s.store.deleted)
    && (forall l :: l in s.store.deleted ==> l in s.store.issued)
  }

  /** The null key after a write: while versioning is enabled, a null version that was current is kept
      there; in a suspended bucket the null version is replaced, wherever it is. */
  function NullKeyAfter(before: Store): Option<seq<Location>> {
    if before.versioning == Enabled && MasterIsNull(before) then MasterLocation(before)
    else if before.versioning == Suspended && !MasterIsNull(before) then None
    else before.nullKey
  }

  /** The data that a write replaces: that of the current object in a bucket without versioning, and of
      the null version in a suspended one. */
  function ReplacedBy(before: Store): set<Location> {
    var current := if MasterLocation(before).Some? then ToSet(MasterLocation(before).value) else {};
    match before.versioning
    case NotConfigured => current
    case Enabled => {}
    case Suspended =>
      if MasterIsNull(before) then current
      else if before.nullKey.Some? then ToSet(before.nullKey.value) else {}
  }

  /** No stored object or part refers to deleted data, and no two versions share data. The null key may
      hold a copy of a null version that is current. */
  ghost predicate Safe(store: Store) {
    && SeparateVersions(store.versions)
    && (forall v, l :: v in store.versions && l in store.versions[v].location ==>
          && l in store.issued && l !in store.deleted
          && (InNullKey(store, l) ==> MasterIsNull(store) && store.master == Some(v)))
    && (forall l :: InNullKey(store, l) ==> l in store.issued && l !in store.deleted)
    && (forall n, l :: n in store.parts && l in store.parts[n] ==>
          l in store.issued && l !in store.deleted)
  }

  // ----- when certain events may happen

  /** The events whose time matters: other requests write the object key, or a part is stored. */
  datatype Kind = OtherWrites | PartStores

  predicate IsOf(kind: Kind, e: Event) {
    match kind
    case OtherWrites => e.OtherPut?
    case PartStores => e.PutStorePart?
  }

  predicate NoneOf(kind: Kind, events: seq<Event>) {
    forall e <- events :: !IsOf(kind, e)
  }

  /** How many attempts may still begin after this event. */
  function Remaining(e: Event, attempt: int): int {
    if e.CompleteReadObject? then attempt - 1 else attempt
  }

  /** Such events happen only before the completion attempt with this index begins. */
  predicate OnlyBefore(kind: Kind, events: seq<Event>, attempt: int)
    decreases |events|
  {
    events == []
    || ((IsOf(kind, events[0]) ==> attempt >= 0) && OnlyBefore(kind, events[1..], Remaining(events[0], attempt)))
  }

  lemma {:induction false} NoneIsBefore(kind: Kind, events: seq<Event>, attempt: int)
    requires NoneOf(kind, events)
    ensures OnlyBefore(kind, events, attempt)
    decreases |events|
  {
    if events != [] {
      assert events[0] in events;
      NoneIsBefore(kind, events[1..], Remaining(events[0], attempt));
    }
  }

  lemma {:induction false} OnlyBeforeAppend(kind: Kind, events: seq<Event>, e: Event, attempt: int)
    requires OnlyBefore(kind, events, attempt) && !IsOf(kind, e)
    ensures OnlyBefore(kind, events + [e], attempt)
    decreases |events|
  {
    if events == [] {
      NoneIsBefore(kind, [e], attempt);
      assert events + [e] == [e];
    } else {
      assert (events + [e])[0] == events[0] && (events + [e])[1..] == events[1..] + [e];
      OnlyBeforeAppend(kind, events[1..], e, Remaining(events[0], attempt));
    }
  }
}
