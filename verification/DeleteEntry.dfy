/** Deleting many objects with one request: what becomes of each entry on its own, given what the
    services answer, and what the entries add up to. */
module DeleteEntry {
  import opened Wrappers
  import opened Locations

  /** An entry of the request. An empty version id counts as none. */
  datatype Entry = Entry(key: string, versionId: string)

  /** The `location` of an object: none, a bare one of an older model version, or a list. */
  datatype DataLocation = NoData | Single(location: Location) | Many(locations: seq<Location>)

  datatype Lock = Lock(isLocked: bool, legalHold: bool, isGovernance: bool)

  datatype Metadata = Metadata(location: DataLocation, contentLength: nat, isDeleteMarker: bool, lock: Lock)

  /** What is fixed for the whole request. `decode` and `encode` are those of version ids. */
  datatype Env = Env(
    versioning: bool,
    objectLock: bool,
    bypassHeader: bool,
    nonAccountUser: bool,
    deferred: bool,
    concurrency: nat,
    decode: string -> Option<string>,
    encode: string -> string)

  datatype Policy = Allowed | Denied | PolicyError(error: string)

  /** What the services answer to the worker of one entry, should it ask them. */
  datatype Answers = Answers(
    read: Result<Option<Metadata>>,
    bypass: Policy,
    deleteMD: Result<()>,
    deleteData: Result<()>,
    marker: Result<string>)

  /** How the worker of one entry ends; `data` is what it wants deleted from the data backend. */
  datatype Outcome =
    | Failed(error: string, data: seq<Location>)
    | Absent
    | Removed(md: Metadata, data: seq<Location>)
    | Marked(versionId: string)
    | Crashed

  datatype ErrorResult = ErrorResult(entry: Entry, error: string)

  datatype DeletedResult = DeletedResult(entry: Entry, isDeleteMarker: bool, markerVersionId: Option<string>)

  // ----- one entry on its own

  function DecodeObjectVersion(env: Env, entry: Entry): Result<Option<string>> {
    if entry.versionId == "" then Ok(None)
    else if entry.versionId == "null" then Ok(Some("null"))
    else match env.decode(entry.versionId)
      case None => Err("NoSuchVersion")
      case Some(v) => Ok(Some(v))
  }

  predicate CanModifyObject(lock: Lock, bypass: bool) {
    !lock.isLocked || (!lock.legalHold && lock.isGovernance && bypass)
  }

  function DataOf(md: Metadata): seq<Location> {
    match md.location
    case NoData => []
    case Single(l) => [l]
    case Many(ls) => ls
  }

  /** Data goes when the bucket has no versioning, or when a version is named. */
  predicate DeletesData(env: Env, entry: Entry) {
    !env.versioning || entry.versionId != ""
  }

  datatype Next = Finish(outcome: Outcome) | AskPolicy | Act

  function AfterLock(lock: Lock, bypass: bool): Next {
    if CanModifyObject(lock, bypass) then Act else Finish(Failed("AccessDenied", []))
  }

  function AfterRead(env: Env, entry: Entry, read: Result<Option<Metadata>>): Next {
    if DecodeObjectVersion(env, entry).Err? then Finish(Failed(DecodeObjectVersion(env, entry).error, []))
    else match read
      case Err(error) => Finish(Failed(error, []))
      case Ok(None) => if env.versioning && entry.versionId == "" then Act else Finish(Absent)
      case Ok(Some(md)) =>
        if entry.versionId == "" || !env.objectLock then Act
        else if env.bypassHeader && env.nonAccountUser then AskPolicy
        else AfterLock(md.lock, env.bypassHeader)
  }

  function AfterPolicy(lock: Lock, policy: Policy): Next {
    match policy
    case Allowed => AfterLock(lock, true)
    case Denied => Finish(Failed("AccessDenied", []))
    case PolicyError(error) => Finish(Failed(error, []))
  }

  /** The last step. A failure to delete data only shows when it is deleted at once and from a list;
      a failure to store a delete marker makes the callback read a property of `undefined`. */
  function AfterAct(env: Env, entry: Entry, a: Answers): Outcome
    requires DeletesData(env, entry) ==> a.read.Ok? && a.read.value.Some?
  {
    if DeletesData(env, entry) then
      var md := a.read.value.value;
      if a.deleteMD.Err? then Failed(a.deleteMD.error, [])
      else if !env.deferred && md.location.Many? && a.deleteData.Err? then Failed(a.deleteData.error, DataOf(md))
      else Removed(md, DataOf(md))
    else
      match a.marker
      case Ok(versionId) => Marked(versionId)
      case Err(_) => Crashed
  }

  function Follow(env: Env, entry: Entry, a: Answers, next: Next): Outcome
    requires next == AfterRead(env, entry, a.read)
             || (AfterRead(env, entry, a.read) == AskPolicy && next == AfterPolicy(a.read.value.value.lock, a.bypass))
    decreases next.AskPolicy?
  {
    match next
    case Finish(outcome) => outcome
    case AskPolicy => Follow(env, entry, a, AfterPolicy(a.read.value.value.lock, a.bypass))
    case Act => AfterAct(env, entry, a)
  }

  /** All steps for one entry, without anybody in between. */
  function Handle(env: Env, entry: Entry, a: Answers): Outcome {
    Follow(env, entry, a, AfterRead(env, entry, a.read))
  }

  /** The version id that the entry names, if any, is one. */
  predicate NamesVersion(env: Env, entry: Entry) {
    entry.versionId == "" || entry.versionId == "null" || env.decode(entry.versionId).Some?
  }

  /** A locked object may be changed only under a governance lock, without a legal hold, by a bypass. */
  predicate IsProtected(lock: Lock, bypass: bool) {
    lock.isLocked && (lock.legalHold || !lock.isGovernance || !bypass)
  }

  /** How a request on one entry ends before the object is looked at, or when there is none to look at;
      and when a delete marker is wanted. */
  lemma OutcomeWithoutDeletion(env: Env, entry: Entry, a: Answers)
    ensures !NamesVersion(env, entry) ==> Handle(env, entry, a) == Failed("NoSuchVersion", [])
    ensures NamesVersion(env, entry) && a.read.Err? ==> Handle(env, entry, a) == Failed(a.read.error, [])
    ensures NamesVersion(env, entry) && a.read == Ok(None) && !(env.versioning && entry.versionId == "") ==>
      Handle(env, entry, a) == Absent
    ensures a.read.Ok? && env.versioning && entry.versionId == "" ==>
      Handle(env, entry, a) == if a.marker.Ok? then Marked(a.marker.value) else Crashed
  {
  }

  /** The object is there and is to be deleted: only a named version in a bucket with object lock can be
      protected, and a user asks for the bypass. */
  lemma OutcomeOfProtection(env: Env, entry: Entry, a: Answers)
    requires NamesVersion(env, entry) && a.read.Ok? && a.read.value.Some? && !(env.versioning && entry.versionId == "")
    requires entry.versionId != "" && env.objectLock
    ensures var lock, asks := a.read.value.value.lock, env.bypassHeader && env.nonAccountUser;
            && (asks && a.bypass.PolicyError? ==> Handle(env, entry, a) == Failed(a.bypass.error, []))
            && (asks && a.bypass.Denied? ==> Handle(env, entry, a) == Failed("AccessDenied", []))
            && (!(asks && !a.bypass.Allowed?) && IsProtected(lock, env.bypassHeader) ==>
                  Handle(env, entry, a) == Failed("AccessDenied", []))
  {
  }

  /** Nothing protects it: the metadata goes, and then the data, at once or later. */
  lemma OutcomeOfDeletion(env: Env, entry: Entry, a: Answers)
    requires NamesVersion(env, entry) && a.read.Ok? && a.read.value.Some? && !(env.versioning && entry.versionId == "")
    requires entry.versionId != "" && env.objectLock ==>
      && !IsProtected(a.read.value.value.lock, env.bypassHeader)
      && (env.bypassHeader && env.nonAccountUser ==> a.bypass.Allowed?)
    ensures var md := a.read.value.value;
            var data := if md.location.NoData? then [] else if md.location.Single? then [md.location.location] else md.location.locations;
            Handle(env, entry, a) ==
              if a.deleteMD.Err? then Failed(a.deleteMD.error, [])
              else if !env.deferred && md.location.Many? && a.deleteData.Err? then Failed(a.deleteData.error, data)
              else Removed(md, data)
  {
  }

  // ----- what a set of finished entries adds up to

  /** The results of the request so far: what is reported, which entries that answers, the two
      counters, and the data that the data backend is asked to delete, now or at the end. */
  datatype Tally = Tally(
    errors: multiset<ErrorResult>,
    deleted: multiset<DeletedResult>,
    answered: multiset<Entry>,
    removed: int,
    bytes: int,
    data: multiset<Location>)

  function Add(a: Tally, b: Tally): Tally {
    Tally(a.errors + b.errors, a.deleted + b.deleted, a.answered + b.answered,
          a.removed + b.removed, a.bytes + b.bytes, a.data + b.data)
  }

  const NOTHING := Tally(multiset{}, multiset{}, multiset{}, 0, 0, multiset{})

  function DataWanted(outcome: Outcome): seq<Location> {
    if outcome.Failed? || outcome.Removed? then outcome.data else []
  }

  /** A delete marker counts as one object more, a removed object that has a size as one less. */
  function CountOf(outcome: Outcome): int {
    match outcome
    case Removed(md, _) => if md.contentLength > 0 then 1 else 0
    case Marked(_) => -1
    case _ => 0
  }

  function Report(env: Env, entry: Entry, outcome: Outcome): DeletedResult {
    match outcome
    case Marked(versionId) => DeletedResult(entry, true, Some(env.encode(versionId)))
    case Removed(md, _) =>
      if md.isDeleteMarker then DeletedResult(entry, true, Some(entry.versionId)) else DeletedResult(entry, false, None)
    case _ => DeletedResult(entry, false, None)
  }

  function TallyOf(env: Env, entry: Entry, outcome: Outcome): Tally {
    var bytes := if outcome.Removed? then outcome.md.contentLength else 0;
    var data := multiset(DataWanted(outcome));
    if outcome.Crashed? then NOTHING
    else if outcome.Failed? then
      Tally(multiset{ErrorResult(entry, outcome.error)}, multiset{}, multiset{entry}, 0, 0, data)
    else
      Tally(multiset{}, multiset{Report(env, entry, outcome)}, multiset{entry}, CountOf(outcome), bytes, data)
  }

  function EntryTally(env: Env, entry: Entry, a: Answers): Tally {
    TallyOf(env, entry, Handle(env, entry, a))
  }

  /** What each entry adds, when it is handled on its own. */
  function EntryTallies(env: Env, entries: seq<Entry>, answers: seq<Answers>): (r: seq<Tally>)
    requires |entries| == |answers|
    ensures |r| == |entries|
  {
    seq(|entries|, i requires 0 <= i < |entries| => EntryTally(env, entries[i], answers[i]))
  }

  /** What an outcome is reported as, and counted for. */
  lemma TallyIs(env: Env, entry: Entry, outcome: Outcome)
    ensures var t := TallyOf(env, entry, outcome);
      match outcome
      case Failed(error, data) =>
        t == Tally(multiset{ErrorResult(entry, error)}, multiset{}, multiset{entry}, 0, 0, multiset(data))
      case Absent => t == Tally(multiset{}, multiset{DeletedResult(entry, false, None)}, multiset{entry}, 0, 0, multiset{})
      case Removed(md, data) =>
        && t.deleted == (if md.isDeleteMarker then multiset{DeletedResult(entry, true, Some(entry.versionId))}
                         else multiset{DeletedResult(entry, false, None)})
        && t.removed == (if md.contentLength == 0 then 0 else 1) && t.bytes == md.contentLength
        && t.errors == multiset{} && t.answered == multiset{entry} && t.data == multiset(data)
      case Marked(versionId) =>
        t == Tally(multiset{}, multiset{DeletedResult(entry, true, Some(env.encode(versionId)))}, multiset{entry}, -1, 0, multiset{})
      case Crashed => t == Tally(multiset{}, multiset{}, multiset{}, 0, 0, multiset{})
  {
  }

  /** The sum of all tallies, one after the other. */
  function Sum(tallies: seq<Tally>): Tally {
    if tallies == [] then NOTHING else Add(Sum(tallies[..|tallies| - 1]), tallies[|tallies| - 1])
  }

  lemma {:induction false} EachAnswersItsEntry(entries: seq<Entry>, tallies: seq<Tally>)
    requires |entries| == |tallies| && forall i :: 0 <= i < |entries| ==> tallies[i].answered == multiset{entries[i]}
    ensures Sum(tallies).answered == multiset(entries)
  {
    if entries != [] {
      var k := |entries| - 1;
      EachAnswersItsEntry(entries[..k], tallies[..k]);
      LastOf(entries);
      assert Sum(tallies).answered == Sum(tallies[..k]).answered + tallies[k].answered;
    }
  }

  lemma LastOf<T>(s: seq<T>)
    requires s != []
    ensures multiset(s) == multiset(s[..|s| - 1]) + multiset{s[|s| - 1]}
  {
    assert s == s[..|s| - 1] + [s[|s| - 1]];
  }

  /** The request wants a delete marker for this entry, and it cannot be stored. */
  predicate MarkerFails(env: Env, entry: Entry, a: Answers) {
    env.versioning && entry.versionId == "" && a.read.Ok? && a.marker.Err?
  }

  /** A worker ends in a crash exactly then. */
  lemma CrashesExactly(env: Env, entry: Entry, a: Answers)
    ensures Handle(env, entry, a).Crashed? <==> MarkerFails(env, entry, a)
  {
  }

  predicate MarkerFailsAt(env: Env, entries: seq<Entry>, answers: seq<Answers>, i: nat)
    requires i < |entries| == |answers|
  {
    MarkerFails(env, entries[i], answers[i])
  }

  ghost predicate EveryMarkerIsStored(env: Env, entries: seq<Entry>, answers: seq<Answers>)
    requires |entries| == |answers|
  {
    forall i: nat :: i < |entries| ==> !MarkerFailsAt(env, entries, answers, i)
  }

  /** Every entry is answered exactly once, as an error or as deleted. */
  lemma EveryEntryIsAnsweredOnce(env: Env, entries: seq<Entry>, answers: seq<Answers>)
    requires |entries| == |answers| && EveryMarkerIsStored(env, entries, answers)
    ensures Sum(EntryTallies(env, entries, answers)).answered == multiset(entries)
  {
    forall i: nat | i < |entries|
      ensures EntryTallies(env, entries, answers)[i].answered == multiset{entries[i]}
    {
      assert !MarkerFailsAt(env, entries, answers, i);
      CrashesExactly(env, entries[i], answers[i]);
    }
    EachAnswersItsEntry(entries, EntryTallies(env, entries, answers));
  }

  // ----- deferred and immediate deletion of data

  lemma {:induction false} SameSums(a: seq<Tally>, b: seq<Tally>)
    requires |a| == |b| && forall i :: 0 <= i < |a| ==> a[i].data == b[i].data
    ensures Sum(a).data == Sum(b).data
  {
    if a != [] {
      var k := |a| - 1;
      SameSums(a[..k], b[..k]);
    }
  }

  /** The worker of this entry comes to its last call. */
  predicate Acts(env: Env, entry: Entry, a: Answers) {
    var next := AfterRead(env, entry, a.read);
    next == Act || (next == AskPolicy && AfterPolicy(a.read.value.value.lock, a.bypass) == Act)
  }

  /** The metadata of an object with a list of locations is deleted, and its data is not. */
  predicate DataIsLeft(env: Env, entry: Entry, a: Answers) {
    && Acts(env, entry, a) && DeletesData(env, entry) && a.read.Ok? && a.read.value.Some?
    && a.deleteMD.Ok? && a.read.value.value.location.Many? && a.deleteData.Err?
  }

  lemma ActDeferred(env: Env, entry: Entry, a: Answers)
    requires Acts(env, entry, a)
    ensures DeletesData(env, entry) ==> a.read.Ok? && a.read.value.Some?
    ensures var now, later := AfterAct(env.(deferred := false), entry, a), AfterAct(env.(deferred := true), entry, a);
            DataWanted(now) == DataWanted(later)
            && (if DataIsLeft(env, entry, a) then now.Failed? && later.Removed? else now == later)
  {
  }

  lemma HandleDeferred(env: Env, entry: Entry, a: Answers)
    ensures var now, later := Handle(env.(deferred := false), entry, a), Handle(env.(deferred := true), entry, a);
            DataWanted(now) == DataWanted(later)
            && (if DataIsLeft(env, entry, a) then now.Failed? && later.Removed? else now == later)
  {
    var next := AfterRead(env, entry, a.read);
    assert AfterRead(env.(deferred := false), entry, a.read) == next == AfterRead(env.(deferred := true), entry, a.read);
    if Acts(env, entry, a) {
      ActDeferred(env, entry, a);
    }
  }

  lemma TallyIgnoresDeferred(env: Env, entry: Entry, outcome: Outcome, deferred: bool)
    ensures TallyOf(env.(deferred := deferred), entry, outcome) == TallyOf(env, entry, outcome)
  {
  }

  /** One entry: deferral hides an error exactly when data is left behind. */
  lemma TallyDeferred(env: Env, entry: Entry, a: Answers)
    ensures var now, later := EntryTally(env.(deferred := false), entry, a), EntryTally(env.(deferred := true), entry, a);
            && now.data == later.data
            && (if DataIsLeft(env, entry, a) then |now.errors| == 1 && |later.errors| == 0 else now == later)
  {
    HandleDeferred(env, entry, a);
    var now, later := Handle(env.(deferred := false), entry, a), Handle(env.(deferred := true), entry, a);
    TallyIgnoresDeferred(env, entry, now, false);
    TallyIgnoresDeferred(env, entry, later, true);
    DataOfTally(env, entry, now);
    DataOfTally(env, entry, later);
  }

  lemma DataOfTally(env: Env, entry: Entry, outcome: Outcome)
    ensures TallyOf(env, entry, outcome).data == multiset(DataWanted(outcome))
  {
  }

  /** The entries whose data is left. */
  function DataLeft(env: Env, entries: seq<Entry>, answers: seq<Answers>): nat
    requires |entries| == |answers|
  {
    if entries == [] then 0
    else
      var k := |entries| - 1;
      DataLeft(env, entries[..k], answers[..k]) + if DataIsLeft(env, entries[k], answers[k]) then 1 else 0
  }

  /** Whether data is deleted at once or at the end, the same locations are asked to be deleted. When
      it is deleted at the end, there is one error less for each entry with a list of locations whose
      metadata is deleted and whose data is not; the results are the same if and only if there is no
      such entry. */
  lemma DeferredDeletesTheSame(env: Env, entries: seq<Entry>, answers: seq<Answers>)
    requires |entries| == |answers|
    ensures var now := Sum(EntryTallies(env.(deferred := false), entries, answers));
            var later := Sum(EntryTallies(env.(deferred := true), entries, answers));
            && now.data == later.data
            && |now.errors| == |later.errors| + DataLeft(env, entries, answers)
            && (now == later <==> DataLeft(env, entries, answers) == 0)
  {
    var now := EntryTallies(env.(deferred := false), entries, answers);
    var later := EntryTallies(env.(deferred := true), entries, answers);
    forall i | 0 <= i < |entries|
      ensures now[i].data == later[i].data
    {
      TallyDeferred(env, entries[i], answers[i]);
    }
    SameSums(now, later);
    ErrorsHidden(env, entries, answers);
    if DataLeft(env, entries, answers) == 0 {
      NothingHidden(env, entries, answers);
    }
  }

  lemma TalliesSplit(env: Env, entries: seq<Entry>, answers: seq<Answers>)
    requires |entries| == |answers| > 0
    ensures var k := |entries| - 1;
            Sum(EntryTallies(env, entries, answers))
            == Add(Sum(EntryTallies(env, entries[..k], answers[..k])), EntryTally(env, entries[k], answers[k]))
  {
    var k := |entries| - 1;
    assert EntryTallies(env, entries, answers)[..k] == EntryTallies(env, entries[..k], answers[..k]);
  }

  lemma {:induction false} ErrorsHidden(env: Env, entries: seq<Entry>, answers: seq<Answers>)
    requires |entries| == |answers|
    ensures |Sum(EntryTallies(env.(deferred := false), entries, answers)).errors|
            == |Sum(EntryTallies(env.(deferred := true), entries, answers)).errors| + DataLeft(env, entries, answers)
  {
    if entries != [] {
      var k := |entries| - 1;
      ErrorsHidden(env, entries[..k], answers[..k]);
      TalliesSplit(env.(deferred := false), entries, answers);
      TalliesSplit(env.(deferred := true), entries, answers);
      TallyDeferred(env, entries[k], answers[k]);
    }
  }

  lemma {:induction false} NothingHidden(env: Env, entries: seq<Entry>, answers: seq<Answers>)
    requires |entries| == |answers| && DataLeft(env, entries, answers) == 0
    ensures Sum(EntryTallies(env.(deferred := false), entries, answers))
            == Sum(EntryTallies(env.(deferred := true), entries, answers))
  {
    if entries != [] {
      var k := |entries| - 1;
      NothingHidden(env, entries[..k], answers[..k]);
      TalliesSplit(env.(deferred := false), entries, answers);
      TalliesSplit(env.(deferred := true), entries, answers);
      TallyDeferred(env, entries[k], answers[k]);
    }
  }
}
