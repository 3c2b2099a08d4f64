/** The upload requests as the server runs them: call after call, each of which may fail, with any
    number of other requests at work between two calls. Every call is one event of the protocol,
    so whatever holds of all runs of the protocol holds of this code. */
module MpuServer {
  import opened Wrappers
  import opened Sequences
  import opened Locations
  import opened MpuModel
  import opened MpuInvariant
  import opened MpuSafety
  import opened MpuReplay

  const MAXIMUM_ALLOWED_PART_SIZE := 5368709120

  /** Among the events from this one on, a completion listed these parts of an upload that was marked. */
  ghost predicate WasListed(start: State, events: seq<Event>, from: nat, stored: map<nat, seq<Location>>) {
    exists i :: from <= i < |events| && events[i].CompleteList? && IsMarkedWith(Run(start, events[..i]), stored)
  }

  ghost predicate IsMarkedWith(s: Option<State>, parts: map<nat, seq<Location>>) {
    s.Some? && s.value.store.overview == Completing && s.value.store.parts == parts
  }

  /** A commit that is no replay. */
  lemma CommitSteps(s: State, vid: nat)
    requires s.completion.Prepared? && ValidList(s.completion.list, s.completion.snapshot) && vid !in s.store.versions
    requires !IsReplay(s.completion.objMD, Locate(s.completion.list, s.completion.snapshot))
    ensures var c := s.completion;
            Step(s, CompleteCommit(vid)) ==
            Some(s.(store := Commit(s.store, vid, c.plan, Locate(c.list, c.snapshot)),
                    completion := Cleanup(c.replaced, c.snapshot.Keys, true, ExtraLocations(c.list, c.snapshot))))
  {
  }

  lemma ListedJustNow(start: State, events: seq<Event>, s: State)
    requires Run(start, events) == Some(s) && s.store.overview == Completing
    ensures WasListed(start, events + [CompleteList], |events|, s.store.parts)
  {
    var more := events + [CompleteList];
    assert more[|events|] == CompleteList && more[..|events|] == events;
  }

  lemma WasListedStill(start: State, events: seq<Event>, from: nat, stored: map<nat, seq<Location>>,
                       more: seq<Event>, earlier: nat)
    requires WasListed(start, events, from, stored) && events <= more && earlier <= from
    ensures WasListed(start, more, earlier, stored)
  {
    var i :| from <= i < |events| && events[i].CompleteList? && IsMarkedWith(Run(start, events[..i]), stored);
    assert more[i] == events[i] && more[..i] == events[..i];
  }

  /** At some moment from this one on, the upload had no overview. */
  ghost predicate WasAbsent(start: State, events: seq<Event>, from: nat) {
    exists i: nat :: from <= i && AbsentAt(start, events, i)
  }

  ghost predicate AbsentAt(start: State, events: seq<Event>, i: nat) {
    i <= |events| && Run(start, events[..i]).Some? && Run(start, events[..i]).value.store.overview == Absent
  }

  lemma WasAbsentStill(start: State, events: seq<Event>, from: nat, more: seq<Event>, earlier: nat)
    requires WasAbsent(start, events, from) && events <= more && earlier <= from
    ensures WasAbsent(start, more, earlier)
  {
    var i: nat :| from <= i && AbsentAt(start, events, i);
    assert more[..i] == events[..i];
    assert AbsentAt(start, more, i);
  }

  lemma AbsentNow(start: State, events: seq<Event>, s: State)
    requires Run(start, events) == Some(s) && s.store.overview == Absent
    ensures WasAbsent(start, events, |events|)
  {
    assert events[..|events|] == events;
    assert AbsentAt(start, events, |events|);
  }

  /** The object that was current has a location of a listed part. */
  ghost predicate SharesData(before: Option<seq<Location>>, list: seq<nat>, stored: map<nat, seq<Location>>)
    requires forall n <- list :: n in stored
  {
    before.Some? && exists n, l :: n in list && l in before.value && l in stored[n]
  }

  /** The replay test finds exactly that. */
  lemma ReplayExactly(before: Option<seq<Location>>, list: seq<nat>, stored: map<nat, seq<Location>>)
    requires forall n <- list :: n in stored
    ensures IsReplay(before, Locate(list, stored)) <==> SharesData(before, list, stored)
  {
    if IsReplay(before, Locate(list, stored)) {
      var l :| l in before.value && l in Locate(list, stored);
      var n := LocateFrom(list, stored, l);
    }
    if SharesData(before, list, stored) {
      var n, l :| n in list && l in before.value && l in stored[n];
      LocateAll(list, stored, n, l);
    }
  }

  /** The current object is made of the listed parts, in list order. */
  ghost predicate ObjectIs(store: Store, list: seq<nat>, stored: map<nat, seq<Location>>) {
    MasterLocation(store).Some? && MadeOf(MasterLocation(store).value, list, stored)
  }

  /** Version `vid` is new and current; all other versions are as they were, but a null version that was
      current is kept under the null key or gone, as the versioning status asks for. */
  ghost predicate IsNewObject(before: Store, after: Store, vid: nat, list: seq<nat>, stored: map<nat, seq<Location>>) {
    && after.master == Some(vid) && vid in after.versions && ObjectIs(after, list, stored)
    && (after.versions[vid].isNull <==> before.versioning != Enabled)
    && (forall v :: v != vid ==>
          (v in after.versions <==> v in before.versions && !(before.master == Some(v) && before.versions[v].isNull)))
    && (forall v :: v != vid && v in after.versions ==> after.versions[v] == before.versions[v])
    && after.nullKey == NullKeyAfter(before)
  }

  /** What has happened is such that a completion that takes the current object for its own earlier
      commit is right: the object is what it lists. */
  ghost predicate ReplaysAreRight(events: seq<Event>) {
    exists i: nat :: OnlyBefore(PartStores, events, i) && ReplaysAgree(Attempts(events), i, 0)
  }

  lemma {:induction false} OnlyBeforeEarlier(kind: Kind, events: seq<Event>, more: seq<Event>, attempt: int)
    requires OnlyBefore(kind, more, attempt) && events <= more
    ensures OnlyBefore(kind, events, attempt)
    decreases |events|
  {
    if events != [] {
      assert more[0] == events[0] && events[1..] <= more[1..];
      OnlyBeforeEarlier(kind, events[1..], more[1..], Remaining(events[0], attempt));
    }
  }

  lemma WereRightEarlier(events: seq<Event>, more: seq<Event>)
    requires ReplaysAreRight(more) && events <= more && Attempts(events) == Attempts(more)
    ensures ReplaysAreRight(events)
  {
    var i: nat :| OnlyBefore(PartStores, more, i) && ReplaysAgree(Attempts(more), i, 0);
    OnlyBeforeEarlier(PartStores, events, more, i);
  }

  /** The metadata and data services, as far as one upload is concerned. */
  class Server {
    var overview: Overview
    var parts: map<nat, seq<Location>>
    var versions: map<nat, Version>
    var master: Option<nat>
    var nullKey: Option<seq<Location>>
    var versioning: Versioning
    var issued: set<Location>
    ghost var deleted: multiset<Location>

    // how far each request has come, and everything that happened since the upload was initiated
    ghost var puts: map<nat, Put>
    ghost var completion: Completion
    ghost const start: State
    ghost var events: seq<Event>
    /** The calls that have failed, of the request whose code this is. */
    ghost var failures: nat

    ghost function View(): State
      reads this
    {
      State(Store(overview, parts, versions, master, nullKey, versioning, issued, deleted), puts, completion)
    }

    /** Other requests write the key only before the first completion attempt. */
    ghost predicate Valid()
      reads this
    {
      Initial(start) && Run(start, events) == Some(View()) && OnlyBefore(OtherWrites, events, 0)
    }

    /** An upload is initiated: the overview entry is stored. */
    constructor (versions: map<nat, Version>, master: Option<nat>, nullKey: Option<seq<Location>>, versioning: Versioning,
                 issued: set<Location>, ghost deleted: multiset<Location>)
      requires Initial(State(Store(Open, map[], versions, master, nullKey, versioning, issued, deleted), map[], Idle))
      ensures Valid() && events == []
      ensures View() == State(Store(Open, map[], versions, master, nullKey, versioning, issued, deleted), map[], Idle)
    {
      overview, parts := Open, map[];
      this.versions, this.master, this.nullKey, this.versioning := versions, master, nullKey, versioning;
      this.issued, this.deleted := issued, deleted;
      puts, completion, events := map[], Idle, [];
      start := State(Store(Open, map[], versions, master, nullKey, versioning, issued, deleted), map[], Idle);
    }

    /** What the protocol promises, whenever the completions ask for growing lists of parts, and none
        began while versioning was suspended after one that began while it was enabled. */
    lemma IsSafe()
      requires Valid() && Grow(Attempts(events))
      requires NotSuspendedAgain(Statuses(start.store.versioning, events))
      ensures Safe(View().store)
    {
      EveryRunIsSafe(start, events, View());
    }

    /** Notes that the call just made was event `e`. */
    ghost method Note(e: Event, was: State)
      requires Initial(start) && Run(start, events) == Some(was) && OnlyBefore(OtherWrites, events, 0) && !e.OtherPut?
      requires Step(was, e).Some? && Step(was, e).value.store == View().store
      modifies this`puts, this`completion, this`events
      ensures Valid() && Step(was, e) == Some(View())
      ensures events == old(events) + [e]
      ensures Attempts(events) == Attempts(old(events)) + if e.CompleteReadObject? then [e.parts] else []
    {
      var t := Step(was, e).value;
      OnlyBeforeAppend(OtherWrites, events, e, 0);
      RunSplits(start, events, [e]);
      RunPath([e], [was, t]);
      AttemptsJoin(events, [e]);
      assert Attempts([e][1..]) == [];
      puts, completion := t.puts, t.completion;
      events := events + [e];
    }

    /** Whatever other requests do while put-part request `pid` waits: any events but its own. */
    method OtherRequests(ghost pid: nat)
      requires Valid()
      modifies this
      ensures Valid() && old(events) <= events
      ensures (pid in puts <==> old(pid in puts)) && (pid in puts ==> puts[pid] == old(puts[pid]))
      ensures failures == old(failures)
    {
    }

    /** Whatever put-part requests do while the completion waits. */
    method OtherPuts()
      requires Valid()
      modifies this`parts, this`versioning, this`issued, this`deleted, this`puts, this`events
      ensures Valid() && old(events) <= events && Attempts(events) == Attempts(old(events))
    {
    }

    // ----- the calls of a put-part request

    method GetOverview(ghost pid: nat, ghost kind: PutKind, ghost n: nat) returns (r: Result<()>)
      requires Valid() && pid !in puts && 1 <= n <= MAX_PART_NUMBER
      modifies this`puts, this`completion, this`events, this`failures
      ensures Valid() && old(events) <= events
      ensures r.Ok? ==> pid in puts && puts[pid] == Begun(kind, n) && PutBegin(pid, kind, n) in events
      ensures overview == Absent ==> r.Err?
      ensures failures == old(failures) + if r == Err("InternalError") then 1 else 0
      ensures r.Err? && r.error != "InternalError" ==> r == Err("NoSuchKey") && WasAbsent(start, events, |old(events)|)
      ensures r.Err? && failures > old(failures) ==> r == Err("InternalError")
      ensures r == Err("NoSuchKey") ==> overview == Absent
    {
      if * {
        failures := failures + 1;
        return Err("InternalError");
      }
      if overview == Absent {
        AbsentNow(start, events, View());
        return Err("NoSuchKey");
      }
      Note(PutBegin(pid, kind, n), View());
      r := Ok(());
    }

    method GetPart(ghost pid: nat, n: nat) returns (r: Result<Option<seq<Location>>>)
      requires Valid() && pid in puts && (puts[pid].Begun? || puts[pid].Copied?) && puts[pid].n == n
      requires puts[pid].Begun? ==> puts[pid].kind == Upload
      modifies this`puts, this`completion, this`events, this`failures
      ensures Valid() && old(events) <= events && pid in puts
      ensures r.Ok? && old(puts[pid].Begun?) ==> puts[pid] == SawPart(n, r.value)
      ensures r.Ok? && old(puts[pid].Copied?) ==> puts[pid] == Ready(n, r.value, old(puts[pid].data))
      ensures failures == old(failures) + if r.Ok? then 0 else 1
      ensures r.Err? && failures > old(failures) ==> r == Err("InternalError")
    {
      if * {
        failures := failures + 1;
        return Err("InternalError");
      }
      r := Ok(if n in parts then Some(parts[n]) else None);
      Note(PutReadPart(pid), View());
    }

    /** The data service stores the body under locations of its own choice, if it can. */
    method StoreData(ghost pid: nat, chosen: seq<Location>) returns (ok: bool)
      requires Valid() && pid in puts && (puts[pid].SawPart? || (puts[pid].Begun? && puts[pid].kind == Copy))
      modifies this`issued, this`puts, this`completion, this`events, this`failures
      ensures Valid() && old(events) <= events && pid in puts
      ensures ok ==> PutWriteData(pid, chosen) in events
      ensures ok && old(puts[pid].Begun?) ==> puts[pid] == Copied(old(puts[pid].n), chosen)
      ensures ok && old(puts[pid].SawPart?) ==> puts[pid] == Ready(old(puts[pid].n), old(puts[pid].before), chosen)
      ensures failures == old(failures) + if ok then 0 else 1
    {
      ok := false;
      if NoDuplicates(chosen) && forall l <- chosen :: l !in issued {
        ghost var was := View();
        issued := issued + ToSet(chosen);
        Note(PutWriteData(pid, chosen), was);
        ok := *;
      }
      if !ok {
        failures := failures + 1;
      }
    }

    method StorePart(ghost pid: nat, n: nat, data: seq<Location>, ghost before: Option<seq<Location>>) returns (ok: bool)
      requires Valid() && pid in puts && puts[pid] == Ready(n, before, data)
      modifies this`parts, this`puts, this`completion, this`events, this`failures
      ensures Valid() && old(events) <= events && pid in puts
      ensures ok ==> puts[pid] == (if before.Some? then Stored(before.value) else Done) && PutStorePart(pid) in events
      ensures failures == old(failures) + if ok then 0 else 1
    {
      ok := false;
      if * {
        ghost var was := View();
        parts := parts[n := data];
        Note(PutStorePart(pid), was);
        ok := *;
      }
      if !ok {
        failures := failures + 1;
      }
    }

    /** services.isCompleteMPUInProgress: the overview may be gone, which is an error. */
    method IsCompleteInProgress(ghost pid: nat) returns (r: Result<bool>)
      requires Valid() && pid in puts && puts[pid].Stored?
      modifies this`puts, this`completion, this`events, this`failures
      ensures Valid() && old(events) <= events && pid in puts
      ensures r.Ok? ==> r.value == (overview == Completing)
      ensures r == Ok(false) ==> puts[pid] == Deleting(ToSet(old(puts[pid].replacedPart)))
      ensures r == Ok(true) ==> puts[pid] == Done
      ensures failures == old(failures) + if r == Err("InternalError") then 1 else 0
      ensures r.Err? && r.error != "InternalError" ==> r == Err("NoSuchKey") && WasAbsent(start, events, |old(events)|)
      ensures r.Err? && failures > old(failures) ==> r == Err("InternalError")
    {
      if * {
        failures := failures + 1;
        return Err("InternalError");
      }
      r := if overview == Absent then Err("NoSuchKey") else Ok(overview == Completing);
      ghost var was := events;
      if overview == Absent {
        AbsentNow(start, events, View());
      }
      Note(PutReadFlag(pid), View());
      if WasAbsent(start, was, |was|) {
        WasAbsentStill(start, was, |was|, events, |was|);
      }
    }

    method DeleteOldData(ghost pid: nat, l: Location) returns (ok: bool)
      requires Valid() && pid in puts && puts[pid].Deleting? && l in puts[pid].todo
      modifies this`deleted, this`puts, this`completion, this`events, this`failures
      ensures Valid() && old(events) <= events && pid in puts
      ensures puts[pid].Deleting? && (ok ==> puts[pid].todo == old(puts[pid].todo) - {l})
      ensures failures == old(failures) + if ok then 0 else 1
    {
      ok := false;
      if * {
        ghost var was := View();
        deleted := deleted + multiset{l};
        Note(PutDeleteOld(pid, l), was);
        ok := *;
      }
      if !ok {
        failures := failures + 1;
      }
    }

    // ----- the put-part requests

    /** The last steps of both requests: publish the part, and delete what it overwrote unless a
        completion may be using it. */
    method PublishPart(ghost pid: nat, n: nat, before: Option<seq<Location>>, data: seq<Location>) returns (r: Result<()>)
      requires Valid() && pid in puts && puts[pid] == Ready(n, before, data)
      modifies this
      ensures Valid() && old(events) <= events
      ensures r.Ok? ==> pid in puts && (puts[pid].Done? || puts[pid].Deleting?) && PutStorePart(pid) in events
      ensures failures >= old(failures)
      ensures r.Ok? && failures == old(failures) ==> puts[pid].Done? || puts[pid] == Deleting({})
      ensures r.Err? && failures == old(failures) ==> r == Err("NoSuchKey") && WasAbsent(start, events, |old(events)|)
      ensures before.None? && failures == old(failures) ==> r.Ok?
      ensures r.Err? && failures > old(failures) ==> r == Err("InternalError")
      ensures r.Err? && failures == old(failures) ==> PutStorePart(pid) in events
    {
      var ok := StorePart(pid, n, data, before);
      if !ok {
        return Err("InternalError");
      }
      if before.None? {
        return Ok(());
      }
      OtherRequests(pid);
      ghost var was := events;
      assert PutStorePart(pid) in was;
      r := DeleteOverwritten(pid, before.value);
      AbsentSince(|was|, |old(events)|);
    }

    /** What was absent from a moment on was so from an earlier one on. */
    lemma AbsentSince(from: nat, earlier: nat)
      requires earlier <= from
      ensures WasAbsent(start, events, from) ==> WasAbsent(start, events, earlier)
    {
      if WasAbsent(start, events, from) {
        WasAbsentStill(start, events, from, events, earlier);
      }
    }

    /** Deletes the data that was overwritten, unless a completion may be using it. */
    method DeleteOverwritten(ghost pid: nat, data: seq<Location>) returns (r: Result<()>)
      requires Valid() && pid in puts && puts[pid] == Stored(data)
      modifies this
      ensures Valid() && old(events) <= events
      ensures r.Ok? ==> pid in puts && (puts[pid].Done? || puts[pid].Deleting?)
      ensures failures >= old(failures)
      ensures r.Ok? && failures == old(failures) ==> puts[pid].Done? || puts[pid] == Deleting({})
      ensures r.Err? && failures == old(failures) ==> r == Err("NoSuchKey") && WasAbsent(start, events, |old(events)|)
      ensures r.Err? && failures > old(failures) ==> r == Err("InternalError")
    {
      var completing := IsCompleteInProgress(pid);
      match completing {
        case Err(error) => return Err(error);
        case Ok(true) => return Ok(());
        case Ok(false) =>
      }
      DeleteAllOldData(pid, ToSet(data));
      r := Ok(());
    }

    /** An error here is logged, and is no error of the request: the part is stored. */
    method DeleteAllOldData(ghost pid: nat, data: set<Location>)
      requires Valid() && pid in puts && puts[pid] == Deleting(data)
      modifies this
      ensures Valid() && old(events) <= events && pid in puts && puts[pid].Deleting?
      ensures failures >= old(failures) && (failures == old(failures) ==> puts[pid] == Deleting({}))
    {
      var todo := data;
      while todo != {}
        invariant Valid() && old(events) <= events
        invariant pid in puts && puts[pid] == Deleting(todo) && failures == old(failures)
        decreases todo
      {
        OtherRequests(pid);
        var l :| l in todo;
        var ok := DeleteOldData(pid, l);
        if !ok {
          return;
        }
        todo := todo - {l};
      }
    }

    /** `chosen` are the locations that the data service will choose for the body. */
    method ObjectPutPart(ghost pid: nat, partNumber: int, size: nat, chosen: seq<Location>) returns (r: Result<()>)
      requires Valid() && pid !in puts
      modifies this
      ensures Valid() && old(events) <= events
      ensures size > 5368709120 ==> r == Err("EntityTooLarge")
      ensures size <= 5368709120 && partNumber > 10000 ==> r == Err("TooManyParts")
      ensures size <= 5368709120 && partNumber < 1 ==> r == Err("InvalidArgument")
      ensures r.Ok? ==> pid in puts && (puts[pid].Done? || puts[pid].Deleting?)
      ensures r.Ok? ==> PutBegin(pid, Upload, partNumber) in events
      ensures r.Ok? ==> PutWriteData(pid, chosen) in events && PutStorePart(pid) in events
      ensures failures >= old(failures)
      ensures r.Ok? && failures == old(failures) ==> puts[pid].Done? || puts[pid] == Deleting({})
      ensures 1 <= partNumber <= 10000 && size <= 5368709120 && r.Err? && failures == old(failures) ==>
        r == Err("NoSuchKey") && WasAbsent(start, events, |old(events)|)
      ensures r.Err? && failures > old(failures) ==> r == Err("InternalError")
      ensures r == Err("NoSuchKey") ==> overview == Absent == old(overview) || PutStorePart(pid) in events
    {
      if size > MAXIMUM_ALLOWED_PART_SIZE {
        return Err("EntityTooLarge");
      }
      if partNumber > MAX_PART_NUMBER {
        return Err("TooManyParts");
      }
      if partNumber < 1 {
        return Err("InvalidArgument");
      }
      var found := GetOverview(pid, Upload, partNumber);
      if found.Err? {
        return found;
      }
      ghost var was := events;
      r := UploadPart(pid, partNumber, chosen);
      AbsentSince(|was|, |old(events)|);
    }

    method UploadPart(ghost pid: nat, n: nat, chosen: seq<Location>) returns (r: Result<()>)
      requires Valid() && pid in puts && puts[pid] == Begun(Upload, n)
      modifies this
      ensures Valid() && old(events) <= events
      ensures r.Ok? ==> pid in puts && (puts[pid].Done? || puts[pid].Deleting?)
      ensures r.Ok? ==> PutWriteData(pid, chosen) in events && PutStorePart(pid) in events
      ensures failures >= old(failures)
      ensures r.Ok? && failures == old(failures) ==> puts[pid].Done? || puts[pid] == Deleting({})
      ensures r.Err? && failures == old(failures) ==> r == Err("NoSuchKey") && WasAbsent(start, events, |old(events)|)
      ensures r.Err? && failures > old(failures) ==> r == Err("InternalError")
      ensures r.Err? && failures == old(failures) ==> PutStorePart(pid) in events
    {
      OtherRequests(pid);
      var before := GetPart(pid, n);
      if before.Err? {
        return Err(before.error);
      }
      OtherRequests(pid);
      ghost var was := events;
      r := StoreAndPublish(pid, n, before.value, chosen);
      AbsentSince(|was|, |old(events)|);
    }

    method StoreAndPublish(ghost pid: nat, n: nat, before: Option<seq<Location>>, chosen: seq<Location>) returns (r: Result<()>)
      requires Valid() && pid in puts && puts[pid] == SawPart(n, before)
      modifies this
      ensures Valid() && old(events) <= events
      ensures r.Ok? ==> pid in puts && (puts[pid].Done? || puts[pid].Deleting?)
      ensures r.Ok? ==> PutWriteData(pid, chosen) in events && PutStorePart(pid) in events
      ensures failures >= old(failures)
      ensures r.Ok? && failures == old(failures) ==> puts[pid].Done? || puts[pid] == Deleting({})
      ensures r.Err? && failures == old(failures) ==> r == Err("NoSuchKey") && WasAbsent(start, events, |old(events)|)
      ensures r.Err? && failures > old(failures) ==> r == Err("InternalError")
      ensures r.Err? && failures == old(failures) ==> PutStorePart(pid) in events
    {
      var ok := StoreData(pid, chosen);
      if !ok {
        return Err("InternalError");
      }
      OtherRequests(pid);
      ghost var was := events;
      r := PublishPart(pid, n, before, chosen);
      AbsentSince(|was|, |old(events)|);
    }

    /** The copy reads the part that it overwrites only after it has copied the data. */
    method ObjectPutCopyPart(ghost pid: nat, partNumber: int, chosen: seq<Location>) returns (r: Result<()>)
      requires Valid() && pid !in puts
      modifies this
      ensures Valid() && old(events) <= events
      ensures partNumber > 10000 || partNumber < 1 ==> r == Err("InvalidArgument")
      ensures r.Ok? ==> pid in puts && (puts[pid].Done? || puts[pid].Deleting?)
      ensures r.Ok? ==> PutBegin(pid, Copy, partNumber) in events
      ensures r.Ok? ==> PutWriteData(pid, chosen) in events && PutStorePart(pid) in events
      ensures failures >= old(failures)
      ensures r.Ok? && failures == old(failures) ==> puts[pid].Done? || puts[pid] == Deleting({})
      ensures 1 <= partNumber <= 10000 && r.Err? && failures == old(failures) ==>
        (r == Err("NoSuchUpload") || r == Err("NoSuchKey")) && WasAbsent(start, events, |old(events)|)
      ensures r.Err? && failures > old(failures) ==> r == Err("InternalError")
      ensures r == Err("NoSuchUpload") ==> overview == Absent == old(overview)
      ensures r == Err("NoSuchKey") ==> PutStorePart(pid) in events
    {
      if partNumber > MAX_PART_NUMBER || partNumber < 1 {
        return Err("InvalidArgument");
      }
      var found := GetOverview(pid, Copy, partNumber);
      if found.Err? {
        return if found.error == "NoSuchKey" then Err("NoSuchUpload") else found;
      }
      ghost var was := events;
      r := CopyPart(pid, partNumber, chosen);
      AbsentSince(|was|, |old(events)|);
    }

    method CopyPart(ghost pid: nat, n: nat, chosen: seq<Location>) returns (r: Result<()>)
      requires Valid() && pid in puts && puts[pid] == Begun(Copy, n)
      modifies this
      ensures Valid() && old(events) <= events
      ensures r.Ok? ==> pid in puts && (puts[pid].Done? || puts[pid].Deleting?)
      ensures r.Ok? ==> PutWriteData(pid, chosen) in events && PutStorePart(pid) in events
      ensures failures >= old(failures)
      ensures r.Ok? && failures == old(failures) ==> puts[pid].Done? || puts[pid] == Deleting({})
      ensures r.Err? && failures == old(failures) ==> r == Err("NoSuchKey") && WasAbsent(start, events, |old(events)|)
      ensures r.Err? && failures > old(failures) ==> r == Err("InternalError")
      ensures r.Err? && failures == old(failures) ==> PutStorePart(pid) in events
    {
      OtherRequests(pid);
      var ok := StoreData(pid, chosen);
      if !ok {
        return Err("InternalError");
      }
      OtherRequests(pid);
      ghost var was := events;
      r := ReadAndPublish(pid, n, chosen);
      AbsentSince(|was|, |old(events)|);
    }

    method ReadAndPublish(ghost pid: nat, n: nat, chosen: seq<Location>) returns (r: Result<()>)
      requires Valid() && pid in puts && puts[pid] == Copied(n, chosen)
      modifies this
      ensures Valid() && old(events) <= events
      ensures r.Ok? ==> pid in puts && (puts[pid].Done? || puts[pid].Deleting?) && PutStorePart(pid) in events
      ensures failures >= old(failures)
      ensures r.Ok? && failures == old(failures) ==> puts[pid].Done? || puts[pid] == Deleting({})
      ensures r.Err? && failures == old(failures) ==> r == Err("NoSuchKey") && WasAbsent(start, events, |old(events)|)
      ensures r.Err? && failures > old(failures) ==> r == Err("InternalError")
      ensures r.Err? && failures == old(failures) ==> PutStorePart(pid) in events
    {
      var before := GetPart(pid, n);
      if before.Err? {
        return Err(before.error);
      }
      OtherRequests(pid);
      ghost var was := events;
      r := PublishPart(pid, n, before.value, chosen);
      AbsentSince(|was|, |old(events)|);
    }

    // ----- the calls of a completion

    /** Gives the request up, at whatever point it is. */
    ghost method Stop()
      requires Valid()
      modifies this`puts, this`completion, this`events
      ensures Valid() && completion == Idle && events == old(events) + [CompleteStop]
      ensures Attempts(events) == Attempts(old(events))
    {
      Note(CompleteStop, View());
    }

    /** Reads the current object and the versioning status of the bucket, which say what a write will
        do to the null version. */
    method GetObject(list: seq<nat>) returns (r: Result<(Option<seq<Location>>, Plan)>)
      requires Valid() && completion == Idle
      modifies this`puts, this`completion, this`events, this`failures
      ensures Valid() && old(events) <= events
      ensures Attempts(events) == Attempts(old(events)) + if r.Ok? then [list] else []
      ensures r.Ok? ==> completion == SawObject(list, r.value.0, r.value.1)
      ensures r.Ok? ==> r.value.0 == MasterLocation(View().store) && r.value.1 == ProcessVersioningState(View().store)
      ensures r.Err? ==> r == Err("InternalError") && completion == Idle
      ensures failures == old(failures) + if r.Ok? then 0 else 1
    {
      if * {
        failures := failures + 1;
        return Err("InternalError");
      }
      var md := if master.Some? && master.value in versions then Some(versions[master.value].location) else None;
      r := Ok((md, ProcessVersioningState(Store(overview, parts, versions, master, nullKey, versioning, issued, multiset{}))));
      Note(CompleteReadObject(list), View());
    }

    /** services.metadataValidateMultipart, after whatever others do in the meantime */
    method ValidateOverview() returns (r: Result<()>)
      requires Valid() && completion.SawObject?
      modifies this`parts, this`versioning, this`issued, this`deleted, this`puts, this`completion, this`events, this`failures
      ensures Valid() && old(events) <= events && Attempts(events) == Attempts(old(events))
      ensures r.Ok? ==> completion == SawOverview(old(completion.list), old(completion.objMD), old(completion.plan))
      ensures r.Ok? ==> overview != Absent
      ensures failures == old(failures) + if r == Err("InternalError") then 1 else 0
      ensures r.Err? && r.error != "InternalError" ==> r == Err("NoSuchUpload") && WasAbsent(start, events, |old(events)|)
      ensures r.Err? && failures > old(failures) ==> r == Err("InternalError")
    {
      OtherPuts();
      if * {
        failures := failures + 1;
        return Err("InternalError");
      }
      if overview == Absent {
        AbsentNow(start, events, View());
        AbsentSince(|events|, |old(events)|);
        return Err("NoSuchUpload");
      }
      Note(CompleteReadOverview, View());
      r := Ok(());
    }

    /** services.metadataMarkMPObjectForCompletion, after whatever others do in the meantime */
    method MarkForCompletion() returns (ok: bool)
      requires Valid() && completion.SawOverview?
      modifies this`overview, this`parts, this`versioning, this`issued, this`deleted, this`puts, this`completion, this`events, this`failures
      ensures Valid() && old(events) <= events && Attempts(events) == Attempts(old(events))
      ensures ok ==> overview == Completing
      ensures ok ==> completion == Marked(old(completion.list), old(completion.objMD), old(completion.plan))
      ensures failures == old(failures) + if ok then 0 else 1
    {
      OtherPuts();
      ok := false;
      if * {
        ghost var was := View();
        overview := Completing;
        Note(CompleteMark, was);
        ok := *;
      }
      if !ok {
        failures := failures + 1;
      }
    }

    /** services.getMPUparts */
    method GetParts() returns (r: Result<map<nat, seq<Location>>>)
      requires Valid() && completion.Marked? && overview == Completing
      modifies this`puts, this`completion, this`events, this`failures
      ensures Valid() && old(events) <= events && Attempts(events) == Attempts(old(events))
      ensures r.Ok? ==> r.value == parts && WasListed(start, events, |old(events)|, r.value)
      ensures r.Ok? ==>
        completion == Listed(old(completion.list), old(completion.objMD), old(completion.plan), parts)
      ensures failures == old(failures) + if r.Ok? then 0 else 1
      ensures r.Err? && failures > old(failures) ==> r == Err("InternalError")
    {
      if * {
        failures := failures + 1;
        return Err("InternalError");
      }
      r := Ok(parts);
      ListedJustNow(start, events, View());
      Note(CompleteList, View());
    }

    /** versioningPreprocessing: a null version is copied to the null key, or the null key is read. Both
        may fail, the write also after it took effect. Put-part requests may come before. */
    method VersioningPreprocessing(list: seq<nat>, md: Option<seq<Location>>, plan: Plan, snapshot: map<nat, seq<Location>>)
      returns (r: Result<set<Location>>)
      requires Valid() && completion == Listed(list, md, plan, snapshot) && ValidList(list, snapshot)
      modifies this`nullKey, this`parts, this`versioning, this`issued, this`deleted, this`puts, this`completion, this`events, this`failures
      ensures Valid() && old(events) <= events && Attempts(events) == Attempts(old(events))
      ensures r.Ok? ==> completion == Prepared(list, md, plan, snapshot, r.value)
      ensures r.Ok? ==> r.value == DataToDelete(old(nullKey), md, plan)
      ensures r.Ok? ==> nullKey == if plan == Preserve then md else old(nullKey)
      ensures failures == old(failures) + if r.Ok? then 0 else 1
      ensures r.Err? && failures > old(failures) ==> r == Err("InternalError")
    {
      OtherPuts();
      if * {
        failures := failures + 1;
        return Err("InternalError");
      }
      ghost var was := View();
      r := Ok(DataToDelete(nullKey, md, plan));
      if plan == Preserve {
        nullKey := md;
      }
      Note(CompletePrepare, was);
      if * {
        failures := failures + 1;
        return Err("InternalError");
      }
    }

    /** Writes the object, unless the current one is the outcome of an earlier attempt. */
    method StoreAsNewObj(list: seq<nat>, md: Option<seq<Location>>, plan: Plan, snapshot: map<nat, seq<Location>>,
                         replaced: set<Location>, vid: nat) returns (r: Result<set<Location>>)
      requires Valid() && completion == Prepared(list, md, plan, snapshot, replaced)
      requires ValidList(list, snapshot) && vid !in versions
      modifies this`versions, this`master, this`nullKey, this`puts, this`completion, this`events, this`failures
      ensures Valid() && old(events) <= events && Attempts(events) == Attempts(old(events))
      ensures r.Ok? ==> completion == Cleanup(r.value, snapshot.Keys, true, ExtraLocations(list, snapshot))
      ensures r.Ok? && !IsReplay(md, Locate(list, snapshot)) ==>
        IsStored(old(View().store), vid, plan, Locate(list, snapshot)) && r.value == replaced
      ensures r.Ok? && IsReplay(md, Locate(list, snapshot)) ==>
        r.value == {} && versions == old(versions) && master == old(master) && nullKey == old(nullKey)
      ensures r.Ok? && ReplaysAreRight(old(events)) ==> MasterLocation(View().store) == Some(Locate(list, snapshot))
      ensures failures == old(failures) + if r.Ok? then 0 else 1
      ensures r.Err? && failures > old(failures) ==> r == Err("InternalError")
    {
      var replay := FindReplay(md, Locate(list, snapshot));
      if replay {
        SkipObject(list, md, plan, snapshot, replaced, vid);
        return Ok({});
      }
      r := StoreObject(list, md, plan, snapshot, replaced, vid);
    }

    static method FindReplay(md: Option<seq<Location>>, data: seq<Location>) returns (replay: bool)
      ensures replay <==> IsReplay(md, data)
    {
      if md.None? {
        return false;
      }
      var changed := LocationKeysHaveChanged(Current(md.value), Some(data));
      replay := !changed;
    }

    /** On a replay, nothing is written. */
    ghost method SkipObject(list: seq<nat>, md: Option<seq<Location>>, plan: Plan, snapshot: map<nat, seq<Location>>,
                            replaced: set<Location>, vid: nat)
      requires Valid() && completion == Prepared(list, md, plan, snapshot, replaced)
      requires ValidList(list, snapshot) && vid !in versions && IsReplay(md, Locate(list, snapshot))
      modifies this`puts, this`completion, this`events
      ensures Valid() && old(events) <= events && Attempts(events) == Attempts(old(events))
      ensures completion == Cleanup({}, snapshot.Keys, true, ExtraLocations(list, snapshot))
      ensures ReplaysAreRight(old(events)) ==> MasterLocation(View().store) == Some(Locate(list, snapshot))
    {
      if ReplaysAreRight(events) {
        ReplayWasListed(vid);
      }
      Note(CompleteCommit(vid), View());
    }

    /** The new version is current. A null version that was current is gone from the versions, and so is
        the null key if the plan is to replace it. */
    ghost predicate IsStored(before: Store, vid: nat, plan: Plan, data: seq<Location>)
      reads this
    {
      && master == Some(vid)
      && versions == (before.versions - Dropped(before))[vid := Version(plan == Replace || plan == ReplaceNullKey, data)]
      && nullKey == if plan == ReplaceNullKey then None else before.nullKey
    }

    /** The write itself. */
    method WriteObject(vid: nat, plan: Plan, data: seq<Location>)
      modifies this`versions, this`master, this`nullKey
      ensures View().store == Commit(old(View().store), vid, plan, data) && IsStored(old(View().store), vid, plan, data)
    {
      if master.Some? && master.value in versions && versions[master.value].isNull {
        versions := versions - {master.value};
      }
      versions, master := versions[vid := Version(plan == Replace || plan == ReplaceNullKey, data)], Some(vid);
      if plan == ReplaceNullKey {
        nullKey := None;
      }
    }

    /** services.metadataStoreObject: a failure may come after the write. */
    method StoreObject(list: seq<nat>, md: Option<seq<Location>>, plan: Plan, snapshot: map<nat, seq<Location>>,
                       replaced: set<Location>, vid: nat) returns (r: Result<set<Location>>)
      requires Valid() && completion == Prepared(list, md, plan, snapshot, replaced)
      requires ValidList(list, snapshot) && vid !in versions && !IsReplay(md, Locate(list, snapshot))
      modifies this`versions, this`master, this`nullKey, this`puts, this`completion, this`events, this`failures
      ensures Valid() && old(events) <= events && Attempts(events) == Attempts(old(events))
      ensures r.Ok? ==> completion == Cleanup(replaced, snapshot.Keys, true, ExtraLocations(list, snapshot))
      ensures r.Ok? ==> IsStored(old(View().store), vid, plan, Locate(list, snapshot)) && r.value == replaced
      ensures failures == old(failures) + if r.Ok? then 0 else 1
      ensures r.Err? && failures > old(failures) ==> r == Err("InternalError")
    {
      if * {
        failures := failures + 1;
        return Err("InternalError");
      }
      ghost var was := View();
      CommitSteps(was, vid);
      WriteObject(vid, plan, Locate(list, snapshot));
      Note(CompleteCommit(vid), was);
      r := Ok(replaced);
      if * {
        failures := failures + 1;
        return Err("InternalError");
      }
    }

    method DeleteReplaced(l: Location) returns (ok: bool)
      requires Valid() && completion.Cleanup? && l in completion.replaced
      modifies this`deleted, this`puts, this`completion, this`events, this`failures
      ensures Valid() && old(events) <= events && Attempts(events) == Attempts(old(events))
      ensures ok ==> completion == old(completion).(replaced := old(completion.replaced) - {l})
      ensures failures == old(failures) + if ok then 0 else 1
    {
      ok := false;
      if * {
        ghost var was := View();
        deleted := deleted + multiset{l};
        Note(CompleteDeleteReplaced(l), was);
        ok := *;
      }
      if !ok {
        failures := failures + 1;
      }
    }

    method DeletePartKey(n: nat) returns (ok: bool)
      requires Valid() && completion.Cleanup? && completion.replaced == {} && n in completion.keys
      modifies this`parts, this`puts, this`completion, this`events, this`failures
      ensures Valid() && old(events) <= events && Attempts(events) == Attempts(old(events))
      ensures ok ==> completion == old(completion).(keys := old(completion.keys) - {n})
      ensures failures == old(failures) + if ok then 0 else 1
    {
      ok := false;
      if * {
        ghost var was := View();
        parts := parts - {n};
        Note(CompleteDeletePart(n), was);
        ok := *;
      }
      if !ok {
        failures := failures + 1;
      }
    }

    method DeleteOverviewKey() returns (ok: bool)
      requires Valid() && completion.Cleanup? && completion.replaced == {} && completion.overviewKey
      modifies this`overview, this`puts, this`completion, this`events, this`failures
      ensures Valid() && old(events) <= events && Attempts(events) == Attempts(old(events))
      ensures ok ==> overview == Absent && completion == old(completion).(overviewKey := false)
      ensures failures == old(failures) + if ok then 0 else 1
    {
      ok := false;
      if * {
        ghost var was := View();
        overview := Absent;
        Note(CompleteDeleteOverview, was);
        ok := *;
      }
      if !ok {
        failures := failures + 1;
      }
    }

    method DeleteExtra(l: Location) returns (ok: bool)
      requires Valid() && completion.Cleanup? && completion.replaced == {} && completion.keys == {}
      requires !completion.overviewKey && l in completion.extra
      modifies this`deleted, this`puts, this`completion, this`events, this`failures
      ensures Valid() && old(events) <= events && Attempts(events) == Attempts(old(events))
      ensures ok ==> completion == old(completion).(extra := old(completion.extra) - {l})
      ensures failures == old(failures) + if ok then 0 else 1
    {
      ok := false;
      if * {
        ghost var was := View();
        deleted := deleted + multiset{l};
        Note(CompleteDeleteExtra(l), was);
        ok := *;
      }
      if !ok {
        failures := failures + 1;
      }
    }

    /** The data of the object that was replaced. */
    method DeleteAllReplaced(replaced: set<Location>, ghost keys: set<nat>, ghost extra: set<Location>) returns (ok: bool)
      requires Valid() && completion == Cleanup(replaced, keys, true, extra)
      modifies this`parts, this`versioning, this`issued, this`deleted, this`puts, this`completion, this`events, this`failures
      ensures Valid() && old(events) <= events && Attempts(events) == Attempts(old(events))
      ensures ok ==> completion == Cleanup({}, keys, true, extra)
      ensures failures == old(failures) + if ok then 0 else 1
    {
      var todo := replaced;
      while todo != {}
        invariant Valid() && old(events) <= events && Attempts(events) == Attempts(old(events))
        invariant completion == Cleanup(todo, keys, true, extra) && failures == old(failures)
        decreases todo
      {
        OtherPuts();
        var l :| l in todo;
        ok := DeleteReplaced(l);
        if !ok {
          return false;
        }
        todo := todo - {l};
      }
      ok := true;
    }

    /** services.batchDeleteObjectMetadata, the part keys. */
    method DeleteAllPartKeys(keys: set<nat>, ghost extra: set<Location>) returns (ok: bool)
      requires Valid() && completion == Cleanup({}, keys, true, extra)
      modifies this`parts, this`versioning, this`issued, this`deleted, this`puts, this`completion, this`events, this`failures
      ensures Valid() && old(events) <= events && Attempts(events) == Attempts(old(events))
      ensures ok ==> completion == Cleanup({}, {}, true, extra)
      ensures failures == old(failures) + if ok then 0 else 1
    {
      var left := keys;
      while left != {}
        invariant Valid() && old(events) <= events && Attempts(events) == Attempts(old(events))
        invariant completion == Cleanup({}, left, true, extra) && failures == old(failures)
        decreases left
      {
        OtherPuts();
        var n :| n in left;
        ok := DeletePartKey(n);
        if !ok {
          return false;
        }
        left := left - {n};
      }
      ok := true;
    }

    /** The data of the parts that the list leaves out. */
    method DeleteAllExtra(extra: set<Location>) returns (ok: bool)
      requires Valid() && overview == Absent && completion == Cleanup({}, {}, false, extra)
      modifies this`parts, this`versioning, this`issued, this`deleted, this`puts, this`completion, this`events, this`failures
      ensures Valid() && old(events) <= events && Attempts(events) == Attempts(old(events))
      ensures overview == Absent && (ok ==> completion == Cleanup({}, {}, false, {}))
      ensures failures == old(failures) + if ok then 0 else 1
    {
      var todo := extra;
      while todo != {}
        invariant Valid() && old(events) <= events && Attempts(events) == Attempts(old(events))
        invariant overview == Absent && completion == Cleanup({}, {}, false, todo) && failures == old(failures)
        decreases todo
      {
        OtherPuts();
        var l :| l in todo;
        ok := DeleteExtra(l);
        if !ok {
          return false;
        }
        todo := todo - {l};
      }
      ok := true;
    }

    method CleanUp(replaced: set<Location>, keys: set<nat>, extra: set<Location>) returns (ok: bool)
      requires Valid() && completion == Cleanup(replaced, keys, true, extra)
      modifies this`overview, this`parts, this`versioning, this`issued, this`deleted, this`puts, this`completion, this`events, this`failures
      ensures Valid() && old(events) <= events && Attempts(events) == Attempts(old(events))
      ensures ok ==> overview == Absent && completion == Cleanup({}, {}, false, {})
      ensures failures == old(failures) + if ok then 0 else 1
    {
      ok := DeleteAllReplaced(replaced, keys, extra);
      if !ok {
        return false;
      }
      ok := DeleteMetadata(keys, extra);
      if !ok {
        return false;
      }
      ok := DeleteAllExtra(extra);
    }

    /** The part keys and the overview. */
    method DeleteMetadata(keys: set<nat>, ghost extra: set<Location>) returns (ok: bool)
      requires Valid() && completion == Cleanup({}, keys, true, extra)
      modifies this`overview, this`parts, this`versioning, this`issued, this`deleted, this`puts, this`completion, this`events, this`failures
      ensures Valid() && old(events) <= events && Attempts(events) == Attempts(old(events))
      ensures ok ==> overview == Absent && completion == Cleanup({}, {}, false, extra)
      ensures failures == old(failures) + if ok then 0 else 1
    {
      ok := DeleteAllPartKeys(keys, extra);
      if !ok {
        return false;
      }
      OtherPuts();
      ok := DeleteOverviewKey();
    }

    // ----- the completion request

    /** What a completion leaves of the versions, when it has read `md` and `plan`. */
    ghost predicate HasOutcome(before: Store, vid: nat, md: Option<seq<Location>>, plan: Plan, data: seq<Location>)
      reads this
    {
      if IsReplay(md, data) then versions == before.versions && master == before.master
      else
        && master == Some(vid)
        && versions == (before.versions - Dropped(before))[vid := Version(plan == Replace || plan == ReplaceNullKey, data)]
        && nullKey == if plan == Preserve then md else if plan == ReplaceNullKey then None else before.nullKey
    }

    /** In terms of what was there before, and of the listed parts. */
    lemma OutcomeIs(before: Store, vid: nat, list: seq<nat>, stored: map<nat, seq<Location>>)
      requires (forall n <- list :: n in stored) && vid !in before.versions
      requires HasOutcome(before, vid, MasterLocation(before), ProcessVersioningState(before), Locate(list, stored))
      ensures if SharesData(MasterLocation(before), list, stored)
              then versions == before.versions && master == before.master
              else IsNewObject(before, View().store, vid, list, stored)
    {
      ReplayExactly(MasterLocation(before), list, stored);
      LocateExactly(list, stored, Locate(list, stored));
    }

    /** `vid` is the version id that the metadata service would give the new version. On success,
        `stored` are the parts that this request listed while the upload was marked; unless the object
        that was there shares data with them, the new object is made of them. If it does, it still
        is, provided that the attempts and part uploads so far allow no replay of anything else.
        `matches` says whether an ETag of the list is that of the stored part, and `isBig` whether a
        part is big enough not to be the last one. */
    method CompleteMultipartUpload(list: seq<nat>, matches: (nat, seq<Location>) -> bool, isBig: seq<Location> -> bool, vid: nat)
      returns (r: Result<()>, ghost stored: map<nat, seq<Location>>)
      requires Valid() && completion == Idle && vid !in versions
      modifies this
      ensures Valid() && completion == Idle && old(events) <= events
      ensures Attempts(events) == Attempts(old(events)) + [list] || (Attempts(events) == Attempts(old(events)) && r.Err?)
      ensures r.Ok? ==> overview == Absent && WasListed(start, events, |old(events)|, stored)
      ensures r.Ok? ==> list != [] && Ascending(list) && AllFound(list, stored, matches) && AllBig(list, stored, isBig)
      ensures r.Ok? ==> if SharesData(old(MasterLocation(View().store)), list, stored)
                        then versions == old(versions) && master == old(master)
                        else IsNewObject(old(View().store), View().store, vid, list, stored)
      ensures r.Ok? && ReplaysAreRight(events) ==> ObjectIs(View().store, list, stored)
      ensures failures >= old(failures)
      ensures r.Err? && failures == old(failures) ==>
        || (r == Err("NoSuchUpload") && WasAbsent(start, events, |old(events)|))
        || (r == Err("MalformedXML") && list == [])
        || (WasListed(start, events, |old(events)|, stored) && IsRefused(r.error, list, stored, matches, isBig))
      ensures r.Err? && failures > old(failures) ==> r == Err("InternalError")
    {
      var found := GetObject(list);
      if found.Err? {
        stored := map[];
        Stop();
        return Err(found.error), stored;
      }
      ghost var was := events;
      r, stored := CompleteAndStop(list, found.value.0, found.value.1, matches, isBig, vid);
      AbsentSince(|was|, |old(events)|);
      ListedSince(|was|, |old(events)|, stored);
      if r.Ok? {
        OutcomeIs(old(View().store), vid, list, stored);
        LocateExactly(list, stored, Locate(list, stored));
      }
    }

    lemma ListedSince(from: nat, earlier: nat, stored: map<nat, seq<Location>>)
      requires earlier <= from
      ensures WasListed(start, events, from, stored) ==> WasListed(start, events, earlier, stored)
    {
      if WasListed(start, events, from, stored) {
        WasListedStill(start, events, from, stored, events, earlier);
      }
    }

    method CompleteAndStop(list: seq<nat>, md: Option<seq<Location>>, plan: Plan,
                           matches: (nat, seq<Location>) -> bool, isBig: seq<Location> -> bool, vid: nat)
      returns (r: Result<()>, ghost stored: map<nat, seq<Location>>)
      requires Valid() && completion == SawObject(list, md, plan) && vid !in versions && md == MasterLocation(View().store)
      modifies this
      ensures Valid() && completion == Idle && old(events) <= events && Attempts(events) == Attempts(old(events))
      ensures r.Ok? ==> overview == Absent && WasListed(start, events, |old(events)|, stored)
      ensures r.Ok? ==> list != [] && Ascending(list) && AllFound(list, stored, matches) && AllBig(list, stored, isBig)
      ensures r.Ok? ==> HasOutcome(old(View().store), vid, md, plan, Locate(list, stored))
      ensures r.Ok? && ReplaysAreRight(events) ==> MasterLocation(View().store) == Some(Locate(list, stored))
      ensures failures >= old(failures)
      ensures r.Err? && failures == old(failures) ==>
        || (r == Err("NoSuchUpload") && WasAbsent(start, events, |old(events)|))
        || (r == Err("MalformedXML") && list == [])
        || (WasListed(start, events, |old(events)|, stored) && IsRefused(r.error, list, stored, matches, isBig))
      ensures r.Err? && failures > old(failures) ==> r == Err("InternalError")
    {
      r, stored := Complete(list, md, plan, matches, isBig, vid);
      ghost var ended := events;
      Stop();
      if WasListed(start, ended, |old(events)|, stored) {
        WasListedStill(start, ended, |old(events)|, stored, events, |old(events)|);
      }
      if WasAbsent(start, ended, |old(events)|) {
        WasAbsentStill(start, ended, |old(events)|, events, |old(events)|);
      }
      if ReplaysAreRight(events) {
        WereRightEarlier(ended, events);
      }
    }

    /** Validates the upload and marks it. */
    method Mark(list: seq<nat>, ghost md: Option<seq<Location>>, ghost plan: Plan) returns (r: Result<()>)
      requires Valid() && completion == SawObject(list, md, plan)
      modifies this`overview, this`parts, this`versioning, this`issued, this`deleted, this`puts, this`completion, this`events, this`failures
      ensures Valid() && old(events) <= events && Attempts(events) == Attempts(old(events))
      ensures r.Ok? ==> list != [] && completion == Marked(list, md, plan) && overview == Completing
      ensures failures >= old(failures)
      ensures r.Err? && failures == old(failures) ==>
        (r == Err("NoSuchUpload") && WasAbsent(start, events, |old(events)|)) || (r == Err("MalformedXML") && list == [])
      ensures r.Err? && failures > old(failures) ==> r == Err("InternalError")
      ensures r.Ok? ==> failures == old(failures)
    {
      r := ValidateOverview();
      if r.Err? {
        return;
      }
      if list == [] {
        return Err("MalformedXML");
      }
      var ok := MarkForCompletion();
      r := if ok then Ok(()) else Err("InternalError");
    }

    /** Up to the listing: validates the upload, marks it, and lists its parts. */
    method MarkAndList(list: seq<nat>, ghost md: Option<seq<Location>>, ghost plan: Plan)
      returns (r: Result<map<nat, seq<Location>>>)
      requires Valid() && completion == SawObject(list, md, plan)
      modifies this`overview, this`parts, this`versioning, this`issued, this`deleted, this`puts, this`completion, this`events, this`failures
      ensures Valid() && old(events) <= events && Attempts(events) == Attempts(old(events))
      ensures r.Ok? ==> list != [] && completion == Listed(list, md, plan, r.value)
      ensures r.Ok? ==> WasListed(start, events, |old(events)|, r.value)
      ensures failures >= old(failures)
      ensures r.Err? && failures == old(failures) ==>
        (r == Err("NoSuchUpload") && WasAbsent(start, events, |old(events)|)) || (r == Err("MalformedXML") && list == [])
      ensures r.Err? && failures > old(failures) ==> r == Err("InternalError")
      ensures r.Ok? ==> failures == old(failures)
    {
      var marked := Mark(list, md, plan);
      if marked.Err? {
        return Err(marked.error);
      }
      OtherPuts();
      ghost var was := events;
      r := GetParts();
      if r.Ok? {
        WasListedStill(start, events, |was|, r.value, events, |old(events)|);
      }
    }

    /** Every listed part is stored, with the ETag of the list. */
    static predicate AllFound(list: seq<nat>, stored: map<nat, seq<Location>>, matches: (nat, seq<Location>) -> bool) {
      forall n <- list :: n in stored && matches(n, stored[n])
    }

    /** Every listed part but the last one is big enough. */
    static predicate AllBig(list: seq<nat>, stored: map<nat, seq<Location>>, isBig: seq<Location> -> bool) {
      forall k :: 0 <= k < |list| - 1 && list[k] in stored ==> isBig(stored[list[k]])
    }

    /** What is wrong with the list, if this is the error. */
    static predicate IsRefused(error: string, list: seq<nat>, stored: map<nat, seq<Location>>,
                               matches: (nat, seq<Location>) -> bool, isBig: seq<Location> -> bool) {
      || (error == "InvalidPartOrder" && !Ascending(list))
      || (error == "InvalidPart" && Ascending(list) && !AllFound(list, stored, matches))
      || (error == "EntityTooSmall" && Ascending(list) && !AllBig(list, stored, isBig))
    }

    /** The list is checked against the parts that are stored. Of two errors that a list in ascending
        order has, either may be answered. */
    static method CheckParts(list: seq<nat>, stored: map<nat, seq<Location>>,
                             matches: (nat, seq<Location>) -> bool, isBig: seq<Location> -> bool) returns (r: Result<()>)
      ensures r.Ok? <==> Ascending(list) && AllFound(list, stored, matches) && AllBig(list, stored, isBig)
      ensures r == Err("InvalidPartOrder") <==> !Ascending(list)
      ensures r == Err("InvalidPart") ==> !AllFound(list, stored, matches)
      ensures r == Err("EntityTooSmall") ==> !AllBig(list, stored, isBig)
      ensures r.Err? ==> IsRefused(r.error, list, stored, matches, isBig)
    {
      if !Ascending(list) {
        return Err("InvalidPartOrder");
      }
      var found := forall n <- list :: n in stored && matches(n, stored[n]);
      var big := forall k :: 0 <= k < |list| - 1 && list[k] in stored ==> isBig(stored[list[k]]);
      var smallFirst: bool := *;
      if !big && (found || smallFirst) {
        return Err("EntityTooSmall");
      }
      r := if found then Ok(()) else Err("InvalidPart");
    }

    method Complete(list: seq<nat>, md: Option<seq<Location>>, plan: Plan,
                    matches: (nat, seq<Location>) -> bool, isBig: seq<Location> -> bool, vid: nat)
      returns (r: Result<()>, ghost stored: map<nat, seq<Location>>)
      requires Valid() && completion == SawObject(list, md, plan) && vid !in versions && md == MasterLocation(View().store)
      modifies this
      ensures Valid() && old(events) <= events && Attempts(events) == Attempts(old(events))
      ensures r.Ok? ==> overview == Absent && WasListed(start, events, |old(events)|, stored)
      ensures r.Ok? ==> list != [] && Ascending(list) && AllFound(list, stored, matches) && AllBig(list, stored, isBig)
      ensures r.Ok? ==> HasOutcome(old(View().store), vid, md, plan, Locate(list, stored))
      ensures r.Ok? && ReplaysAreRight(events) ==> MasterLocation(View().store) == Some(Locate(list, stored))
      ensures failures >= old(failures)
      ensures r.Err? && failures == old(failures) ==>
        || (r == Err("NoSuchUpload") && WasAbsent(start, events, |old(events)|))
        || (r == Err("MalformedXML") && list == [])
        || (WasListed(start, events, |old(events)|, stored) && IsRefused(r.error, list, stored, matches, isBig))
      ensures r.Err? && failures > old(failures) ==> r == Err("InternalError")
    {
      var listing := MarkAndList(list, md, plan);
      stored := map[];
      if listing.Err? {
        return Err(listing.error), stored;
      }
      stored := listing.value;
      r := CheckParts(list, listing.value, matches, isBig);
      if r.Err? {
        return;
      }
      ghost var listed := events;
      r := CommitAndCleanUp(list, md, plan, listing.value, vid);
      WasListedStill(start, listed, |old(events)|, stored, events, |old(events)|);
    }

    /** A replay is what the completion has listed, if the attempts and uploads so far allow no other. */
    lemma ReplayWasListed(vid: nat)
      requires Valid() && completion.Prepared? && ValidList(completion.list, completion.snapshot) && vid !in versions
      requires IsReplay(completion.objMD, Locate(completion.list, completion.snapshot))
      requires ReplaysAreRight(events)
      ensures MasterLocation(View().store) == Some(Locate(completion.list, completion.snapshot))
    {
      var i: nat :| OnlyBefore(PartStores, events, i) && ReplaysAgree(Attempts(events), i, 0);
      var t := Step(View(), CompleteCommit(vid)).value;
      RunLeavesListed(start, events, View(), vid, t, i, 0);
    }

    method CommitAndCleanUp(list: seq<nat>, md: Option<seq<Location>>, plan: Plan, snapshot: map<nat, seq<Location>>,
                            vid: nat) returns (r: Result<()>)
      requires Valid() && completion == Listed(list, md, plan, snapshot)
      requires ValidList(list, snapshot) && vid !in versions && md == MasterLocation(View().store)
      modifies this
      ensures Valid() && old(events) <= events && Attempts(events) == Attempts(old(events))
      ensures r.Ok? ==> overview == Absent && HasOutcome(old(View().store), vid, md, plan, Locate(list, snapshot))
      ensures r.Ok? && ReplaysAreRight(events) ==> MasterLocation(View().store) == Some(Locate(list, snapshot))
      ensures failures == old(failures) + if r.Ok? then 0 else 1
      ensures r.Err? && failures > old(failures) ==> r == Err("InternalError")
    {
      var toDelete := VersioningPreprocessing(list, md, plan, snapshot);
      if toDelete.Err? {
        return Err(toDelete.error);
      }
      OtherPuts();
      r := StoreAndCleanUp(list, md, plan, snapshot, toDelete.value, vid);
    }

    method StoreAndCleanUp(list: seq<nat>, md: Option<seq<Location>>, plan: Plan, snapshot: map<nat, seq<Location>>,
                           toDelete: set<Location>, vid: nat) returns (r: Result<()>)
      requires Valid() && completion == Prepared(list, md, plan, snapshot, toDelete)
      requires ValidList(list, snapshot) && vid !in versions && md == MasterLocation(View().store)
      modifies this
      ensures Valid() && old(events) <= events && Attempts(events) == Attempts(old(events))
      ensures r.Ok? ==> overview == Absent
      ensures r.Ok? && IsReplay(md, Locate(list, snapshot)) ==> versions == old(versions) && master == old(master)
      ensures r.Ok? && !IsReplay(md, Locate(list, snapshot)) ==>
        IsStored(old(View().store), vid, plan, Locate(list, snapshot))
      ensures r.Ok? && ReplaysAreRight(events) ==> MasterLocation(View().store) == Some(Locate(list, snapshot))
      ensures failures == old(failures) + if r.Ok? then 0 else 1
      ensures r.Err? && failures > old(failures) ==> r == Err("InternalError")
    {
      ghost var was := events;
      var replaced := StoreAsNewObj(list, md, plan, snapshot, toDelete, vid);
      if replaced.Err? {
        return Err(replaced.error);
      }
      var ok := CleanUp(replaced.value, snapshot.Keys, ExtraLocations(list, snapshot));
      r := if ok then Ok(()) else Err("InternalError");
      if ReplaysAreRight(events) {
        WereRightEarlier(was, events);
      }
    }
  }
}
