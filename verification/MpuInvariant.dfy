/** What every event of the multipart-upload protocol keeps.

    The invariant is about who holds a data location: a stored part, a version of the object, a
    request in progress, the list of deletions. `base` is what was issued before the upload
    began; `named` is the set of part numbers that the latest completion attempt asks for. */
module MpuInvariant {
  import opened Wrappers
  import opened Sequences
  import opened Locations
  import opened MpuModel

  /** Everybody who may hold a location. */
  datatype Holder =
    | Part(n: nat)         // stored part metadata
    | Object(v: nat)       // a version of the destination object
    | NullKey              // the entry under the null key, as far as it is no copy of the current version
    | Writer(pid: nat)     // written, not yet published
    | Reader(pid: nat)     // read as the part that is about to be overwritten
    | Overwriter(pid: nat) // overwritten, the flag is not read yet
    | Remover(pid: nat)    // overwritten, will be deleted
    | Snapshot(n: nat)     // listed by the completion
    | Replaced             // data of the replaced version, will be deleted
    | Extra                // data of unlisted parts, will be deleted
    | Trash                // deleted

  /** The current version is a null version, and holds this location. */
  predicate InNullMaster(store: Store, l: Location) {
    MasterIsNull(store) && l in store.versions[store.master.value].location
  }

  ghost predicate Holds(s: State, h: Holder, l: Location) {
    match h
    case Part(n) => n in s.store.parts && l in s.store.parts[n]
    case Object(v) => v in s.store.versions && l in s.store.versions[v].location
    case NullKey => InNullKey(s.store, l) && !InNullMaster(s.store, l)
    case Writer(p) => p in s.puts && (s.puts[p].Copied? || s.puts[p].Ready?) && l in s.puts[p].data
    case Reader(p) => p in s.puts && (s.puts[p].SawPart? || s.puts[p].Ready?)
                      && s.puts[p].before.Some? && l in s.puts[p].before.value
    case Overwriter(p) => p in s.puts && s.puts[p].Stored? && l in s.puts[p].replacedPart
    case Remover(p) => p in s.puts && s.puts[p].Deleting? && l in s.puts[p].todo
    case Snapshot(n) => HasListed(s.completion) && n in s.completion.snapshot && l in s.completion.snapshot[n]
    case Replaced => s.completion.Cleanup? && l in s.completion.replaced
    case Extra => s.completion.Cleanup? && l in s.completion.extra
    case Trash => l in s.store.deleted
  }

  /** When `a` and `b` may hold the same location, from the point of view of `a`. */
  ghost predicate MayShare(s: State, named: set<nat>, a: Holder, b: Holder) {
    match (a, b)
    // unpublished data is known to its writer alone, so it enters the part metadata only once
    case (Writer(_), _) => a == b
    case (Part(_), Part(_)) => a == b
    // an overwritten location is gone from the parts, and does not come back
    case (Reader(p), Part(n)) => p in s.puts && (s.puts[p].SawPart? || s.puts[p].Ready?) && s.puts[p].n == n
    case (Overwriter(_), Part(_)) => false
    case (Remover(_), Part(_)) => false
    case (Remover(_), Snapshot(_)) => false
    case (Remover(_), Object(_)) => false
    case (Remover(_), NullKey) => false
    case (Object(_), Object(_)) => a == b
    // only the current version shares data with parts, and only under the named part numbers
    case (Object(v), Part(n)) => s.store.master == Some(v) && n in named
    case (Object(v), Snapshot(n)) => s.store.master == Some(v) && n in named
    // the null key is a version of its own, unless it is a copy
    case (NullKey, Object(_)) => false
    case (NullKey, Part(_)) => false
    case (NullKey, Snapshot(_)) => false
    case (Snapshot(m), Part(n)) => m == n
    case (Snapshot(m), Snapshot(n)) => m == n
    case (Replaced, Part(_)) => false
    case (Replaced, Object(_)) => false
    case (Replaced, NullKey) => false
    case (Extra, Part(n)) => s.completion.Cleanup? && n in s.completion.keys
    case (Extra, Object(_)) => false
    case (Extra, NullKey) => false
    case (Trash, Part(_)) => false
    case (Trash, Object(_)) => false
    case (Trash, NullKey) => false
    case (Trash, Snapshot(_)) => false
    case _ => true
  }

  predicate OfUpload(h: Holder) {
    h.Part? || h.Writer? || h.Reader? || h.Overwriter? || h.Remover?
  }

  ghost predicate SharingIsAllowed(s: State, named: set<nat>) {
    forall a, b, l :: Holds(s, a, l) && Holds(s, b, l) ==> MayShare(s, named, a, b)
  }

  ghost predicate HeldIsIssued(s: State, base: set<Location>) {
    && base <= s.store.issued
    && (forall h, l :: Holds(s, h, l) ==> l in s.store.issued && (OfUpload(h) ==> l !in base))
  }

  /** While the flag is not set, no completion has listed the parts, now or before. */
  ghost predicate OpenMeansUnlisted(s: State, base: set<Location>) {
    s.store.overview == Open ==>
      && (s.completion.Idle? || s.completion.SawObject? || s.completion.SawOverview?)
      && (forall v: nat, l :: Holds(s, Object(v), l) ==> l in base)
      && (forall l :: Holds(s, NullKey, l) ==> l in base)
  }

  /** What the completion has read is still so: nobody else writes the object, and parts only
      change to data that was not there when they were listed. */
  ghost predicate CompletionIsCurrent(s: State, named: set<nat>) {
    var c := s.completion;
    && (Active(c) ==> ToSet(c.list) == named && c.objMD == MasterLocation(s.store))
    && (c.Marked? || HasListed(c) ==> s.store.overview == Completing)
    && (HasListed(c) ==> forall v: nat, n: nat, l ::
          Holds(s, Object(v), l) && Holds(s, Part(n), l) ==> Holds(s, Snapshot(n), l))
  }

  ghost predicate NothingTwice(s: State) {
    && (forall n :: n in s.store.parts ==> NoDuplicates(s.store.parts[n]))
    && (forall v :: v in s.store.versions ==> NoDuplicates(s.store.versions[v].location))
    && (forall p :: p in s.puts && (s.puts[p].Copied? || s.puts[p].Ready?) ==> NoDuplicates(s.puts[p].data))
    && (HasListed(s.completion) ==> forall n :: n in s.completion.snapshot ==> NoDuplicates(s.completion.snapshot[n]))
    && (s.store.master.Some? ==> s.store.master.value in s.store.versions)
  }

  ghost predicate Inv(s: State, base: set<Location>, named: set<nat>) {
    && SharingIsAllowed(s, named)
    && HeldIsIssued(s, base)
    && InStep(s, base, named)
  }

  /** The part of the invariant that is not about pairs of holders. */
  ghost predicate InStep(s: State, base: set<Location>, named: set<nat>) {
    && OpenMeansUnlisted(s, base)
    && CompletionIsCurrent(s, named)
    && NothingTwice(s)
  }

  /** The plan of the completion fits the current object and the null key. `enabled` says whether an
      attempt has begun while versioning was enabled; only then may the null key hold a copy. */
  ghost predicate PlanFits(s: State, enabled: bool) {
    var c := s.completion;
    && (Active(c) ==> (enabled <==> c.plan == Preserve || c.plan == Add))
    && (Active(c) && (c.plan == Preserve || (c.plan == Replace && c.objMD.Some?)) ==> MasterIsNull(s.store))
    && (c.Prepared? ==> c.replaced == DataToDelete(s.store.nullKey, c.objMD, c.plan))
    && (!enabled ==> NoCopy(s.store))
    && (s.store.versioning == NotConfigured ==>
          !enabled && (s.store.master.Some? ==> MasterIsNull(s.store)) && (Active(c) ==> c.plan == Replace))
  }

  ghost predicate NoCopy(store: Store) {
    forall l :: InNullKey(store, l) ==> !InNullMaster(store, l)
  }

  lemma InvIsSafe(s: State, base: set<Location>, named: set<nat>)
    requires Inv(s, base, named)
    ensures Safe(s.store)
  {
    forall v: nat, w: nat, l | v in s.store.versions && w in s.store.versions && v != w && l in s.store.versions[v].location
      ensures l !in s.store.versions[w].location
    {
      assert Holds(s, Object(v), l);
      assert l in s.store.versions[w].location ==> Holds(s, Object(w), l);
    }
    forall v, l | v in s.store.versions && l in s.store.versions[v].location
      ensures l in s.store.issued && l !in s.store.deleted
    {
      assert Holds(s, Object(v), l);
      assert l in s.store.deleted ==> Holds(s, Trash, l);
    }
    NullKeyIsSafe(s, base, named);
    forall n, l | n in s.store.parts && l in s.store.parts[n]
      ensures l in s.store.issued && l !in s.store.deleted
    {
      assert Holds(s, Part(n), l);
      assert l in s.store.deleted ==> Holds(s, Trash, l);
    }
  }

  lemma NullKeyIsSafe(s: State, base: set<Location>, named: set<nat>)
    requires Inv(s, base, named)
    ensures forall l :: InNullKey(s.store, l) ==> l in s.store.issued && l !in s.store.deleted
    ensures forall v, l :: v in s.store.versions && l in s.store.versions[v].location && InNullKey(s.store, l) ==>
              MasterIsNull(s.store) && s.store.master == Some(v)
  {
    forall l | InNullKey(s.store, l)
      ensures l in s.store.issued && l !in s.store.deleted
    {
      var h := if InNullMaster(s.store, l) then Object(s.store.master.value) else NullKey;
      assert Holds(s, h, l);
      assert !MayShare(s, named, Trash, h);
    }
    forall v, l | v in s.store.versions && l in s.store.versions[v].location && InNullKey(s.store, l)
      ensures MasterIsNull(s.store) && s.store.master == Some(v)
    {
      var h := if InNullMaster(s.store, l) then Object(s.store.master.value) else NullKey;
      assert Holds(s, h, l) && Holds(s, Object(v), l);
      assert MayShare(s, named, h, Object(v));
    }
  }

  lemma InitialInv(s: State)
    requires Initial(s)
    ensures Inv(s, s.store.issued, {}) && PlanFits(s, false)
  {
  }

  // ----- events that give each location from one holder to another

  /** All events but those that write new data or commit an object. */
  predicate PassesOn(e: Event) {
    !e.PutWriteData? && !e.CompleteReadObject? && !e.CompleteCommit? && !e.OtherPut?
  }

  predicate IsPutStep(e: Event) {
    e.PutReadPart? || e.PutWriteData? || e.PutStorePart? || e.PutReadFlag? || e.PutDeleteOld?
  }

  /** Who held, before the event, what `h` holds after it. */
  function Before(s: State, e: Event, h: Holder, l: Location): Holder {
    match e
    case PutReadPart(p) => if h == Reader(p) && p in s.puts && !s.puts[p].Stored? && !s.puts[p].Deleting? && !s.puts[p].Done?
                           then Part(s.puts[p].n) else h
    case PutStorePart(p) => if p in s.puts && s.puts[p].Ready? && h == Part(s.puts[p].n) then Writer(p)
                            else if h == Overwriter(p) then Reader(p) else h
    case PutReadFlag(p) => if h == Remover(p) then Overwriter(p) else h
    case PutDeleteOld(p, l') => if h == Trash && l == l' then Remover(p) else h
    case CompleteList => if h.Snapshot? then Part(h.n) else h
    case CompleteDeleteReplaced(l') => if h == Trash && l == l' then Replaced else h
    case CompleteDeleteExtra(l') => if h == Trash && l == l' then Extra else h
    case _ => h
  }

  /** What is copied to the null key is the current version. */
  ghost predicate CopiesMaster(s: State) {
    s.completion.Listed? && s.completion.plan == Preserve ==>
      MasterIsNull(s.store) && s.completion.objMD == MasterLocation(s.store)
  }

  lemma HeldBeforePut(s: State, e: Event, t: State, h: Holder, l: Location)
    requires IsPutStep(e) && !e.PutWriteData? && Step(s, e) == Some(t) && Holds(t, h, l)
    ensures Holds(s, Before(s, e, h, l), l)
  {
    if e.PutStorePart? {
      HeldBeforeStore(s, e, t, h, l);
    }
  }

  lemma HeldBeforeStore(s: State, e: Event, t: State, h: Holder, l: Location)
    requires e.PutStorePart? && Step(s, e) == Some(t) && Holds(t, h, l)
    ensures Holds(s, Before(s, e, h, l), l)
  {
  }

  lemma HeldBefore(s: State, e: Event, t: State, h: Holder, l: Location)
    requires PassesOn(e) && CopiesMaster(s) && Step(s, e) == Some(t) && Holds(t, h, l)
    ensures Holds(s, Before(s, e, h, l), l)
  {
    if IsPutStep(e) {
      HeldBeforePut(s, e, t, h, l);
    }
  }

  /** While the flag is not set, what is in an object is older than the upload. */
  ghost predicate OldIfOpen(s: State, base: set<Location>, h: Holder, l: Location) {
    && (s.store.overview == Open && (h.Object? || h.NullKey?) ==> l in base)
    && (s.store.overview == Open ==> !h.Snapshot?)
    && (OfUpload(h) ==> l !in base)
  }

  /** Two holders of a location after the event, and what the invariant says of those before it. */
  ghost predicate Pair(s: State, e: Event, t: State, base: set<Location>, named: set<nat>, a: Holder, b: Holder, l: Location) {
    var a', b' := Before(s, e, a, l), Before(s, e, b, l);
    && PassesOn(e) && Step(s, e) == Some(t) && Holds(t, a, l) && Holds(t, b, l)
    && MayShare(s, named, a', b') && MayShare(s, named, b', a')
    && OldIfOpen(s, base, a', l) && OldIfOpen(s, base, b', l)
  }

  lemma ReadPartPair(s: State, e: Event, t: State, base: set<Location>, named: set<nat>, a: Holder, b: Holder, l: Location)
    requires e.PutReadPart? && Pair(s, e, t, base, named, a, b, l)
    ensures MayShare(t, named, a, b)
  {
  }

  /** A location enters the part metadata once, from its writer. */
  lemma StorePartPair(s: State, e: Event, t: State, base: set<Location>, named: set<nat>, a: Holder, b: Holder, l: Location)
    requires e.PutStorePart? && Pair(s, e, t, base, named, a, b, l)
    ensures MayShare(t, named, a, b)
  {
  }

  /** Overwritten data is only given to deletion while no completion has listed it. */
  lemma ReadFlagPair(s: State, e: Event, t: State, base: set<Location>, named: set<nat>, a: Holder, b: Holder, l: Location)
    requires e.PutReadFlag? && Pair(s, e, t, base, named, a, b, l)
    ensures MayShare(t, named, a, b)
  {
  }

  lemma DeleteOldPair(s: State, e: Event, t: State, base: set<Location>, named: set<nat>, a: Holder, b: Holder, l: Location)
    requires e.PutDeleteOld? && Pair(s, e, t, base, named, a, b, l)
    ensures MayShare(t, named, a, b)
  {
  }

  lemma ListPair(s: State, e: Event, t: State, base: set<Location>, named: set<nat>, a: Holder, b: Holder, l: Location)
    requires e.CompleteList? && Pair(s, e, t, base, named, a, b, l)
    ensures MayShare(t, named, a, b)
  {
  }

  /** The completion deletes data that is in no version and in no stored part. */
  lemma DeleteDataPair(s: State, e: Event, t: State, base: set<Location>, named: set<nat>, a: Holder, b: Holder, l: Location)
    requires (e.CompleteDeleteReplaced? || e.CompleteDeleteExtra?) && Pair(s, e, t, base, named, a, b, l)
    ensures MayShare(t, named, a, b)
  {
  }

  predicate MovesNoData(e: Event) {
    || e.PutBegin? || e.CompleteReadOverview? || e.CompleteMark? || e.CompleteStop?
    || e.CompletePrepare? || e.CompleteDeletePart? || e.CompleteDeleteOverview? || e.SetVersioning?
  }

  lemma NoDataPair(s: State, e: Event, t: State, base: set<Location>, named: set<nat>, a: Holder, b: Holder, l: Location)
    requires MovesNoData(e) && Pair(s, e, t, base, named, a, b, l)
    ensures MayShare(t, named, a, b)
  {
  }

  lemma PutPair(s: State, e: Event, t: State, base: set<Location>, named: set<nat>, a: Holder, b: Holder, l: Location)
    requires IsPutStep(e) && Pair(s, e, t, base, named, a, b, l)
    ensures MayShare(t, named, a, b)
  {
    match e
    case PutReadPart(_) => ReadPartPair(s, e, t, base, named, a, b, l);
    case PutStorePart(_) => StorePartPair(s, e, t, base, named, a, b, l);
    case PutReadFlag(_) => ReadFlagPair(s, e, t, base, named, a, b, l);
    case PutDeleteOld(_, _) => DeleteOldPair(s, e, t, base, named, a, b, l);
  }

  lemma AnyPair(s: State, e: Event, t: State, base: set<Location>, named: set<nat>, a: Holder, b: Holder, l: Location)
    requires Pair(s, e, t, base, named, a, b, l)
    ensures MayShare(t, named, a, b)
  {
    if IsPutStep(e) {
      PutPair(s, e, t, base, named, a, b, l);
    } else if e.CompleteList? {
      ListPair(s, e, t, base, named, a, b, l);
    } else if e.CompleteDeleteReplaced? || e.CompleteDeleteExtra? {
      DeleteDataPair(s, e, t, base, named, a, b, l);
    } else {
      NoDataPair(s, e, t, base, named, a, b, l);
    }
  }

  lemma HolderIsOld(s: State, base: set<Location>, named: set<nat>, h: Holder, l: Location)
    requires Inv(s, base, named) && Holds(s, h, l)
    ensures OldIfOpen(s, base, h, l) && l in s.store.issued
  {
  }

  lemma HoldersMakePair(s: State, e: Event, t: State, base: set<Location>, named: set<nat>, a: Holder, b: Holder, l: Location)
    requires PassesOn(e) && CopiesMaster(s) && Step(s, e) == Some(t) && Inv(s, base, named)
    requires Holds(t, a, l) && Holds(t, b, l)
    ensures Pair(s, e, t, base, named, a, b, l)
  {
    HeldBefore(s, e, t, a, l);
    HeldBefore(s, e, t, b, l);
    HolderIsOld(s, base, named, Before(s, e, a, l), l);
    HolderIsOld(s, base, named, Before(s, e, b, l), l);
  }

  lemma PassesOnShares(s: State, e: Event, t: State, base: set<Location>, named: set<nat>)
    requires PassesOn(e) && CopiesMaster(s) && Step(s, e) == Some(t) && Inv(s, base, named)
    ensures SharingIsAllowed(t, named)
  {
    forall a, b, l | Holds(t, a, l) && Holds(t, b, l)
      ensures MayShare(t, named, a, b)
    {
      HoldersMakePair(s, e, t, base, named, a, b, l);
      AnyPair(s, e, t, base, named, a, b, l);
    }
  }

  lemma PassesOnIssued(s: State, e: Event, t: State, base: set<Location>, named: set<nat>)
    requires PassesOn(e) && CopiesMaster(s) && Step(s, e) == Some(t) && Inv(s, base, named)
    ensures HeldIsIssued(t, base)
  {
    forall h, l | Holds(t, h, l)
      ensures l in t.store.issued && (OfUpload(h) ==> l !in base)
    {
      HeldBefore(s, e, t, h, l);
      HolderIsOld(s, base, named, Before(s, e, h, l), l);
    }
  }

  // ----- the rest of the invariant

  lemma OpenStays(s: State, e: Event, t: State, base: set<Location>)
    requires PassesOn(e) && CopiesMaster(s) && Step(s, e) == Some(t) && OpenMeansUnlisted(s, base)
    ensures OpenMeansUnlisted(t, base)
  {
    forall h: Holder, l | (h.Object? || h.NullKey?) && Holds(t, h, l)
      ensures Holds(s, h, l)
    {
      HeldBefore(s, e, t, h, l);
    }
  }

  lemma CurrentStays(s: State, e: Event, t: State, base: set<Location>, named: set<nat>)
    requires PassesOn(e) && CopiesMaster(s) && Step(s, e) == Some(t) && Inv(s, base, named)
    ensures CompletionIsCurrent(t, named)
  {
    ObjectStays(s, e, t, named);
    if HasListed(t.completion) {
      forall v: nat, n: nat, l | Holds(t, Object(v), l) && Holds(t, Part(n), l)
        ensures Holds(t, Snapshot(n), l)
      {
        SharedIsListed(s, e, t, base, named, v, n, l);
      }
    }
  }

  /** Data that an object shares with a part is not newly stored. */
  lemma SharedIsListed(s: State, e: Event, t: State, base: set<Location>, named: set<nat>, v: nat, n: nat, l: Location)
    requires PassesOn(e) && CopiesMaster(s) && Step(s, e) == Some(t)
    requires SharingIsAllowed(s, named) && CompletionIsCurrent(s, named)
    requires HasListed(t.completion) && Holds(t, Object(v), l) && Holds(t, Part(n), l)
    ensures Holds(t, Snapshot(n), l)
  {
    HeldBefore(s, e, t, Object(v), l);
    HeldBefore(s, e, t, Part(n), l);
    StillShared(s, e, named, v, n, l);
    ListedStays(s, e, t, n, l);
  }

  lemma StillShared(s: State, e: Event, named: set<nat>, v: nat, n: nat, l: Location)
    requires SharingIsAllowed(s, named) && CompletionIsCurrent(s, named)
    requires Holds(s, Object(v), l) && Holds(s, Before(s, e, Part(n), l), l)
    ensures Holds(s, Part(n), l) && (HasListed(s.completion) ==> Holds(s, Snapshot(n), l))
  {
    assert MayShare(s, named, Before(s, e, Part(n), l), Object(v));
  }

  lemma ObjectStays(s: State, e: Event, t: State, named: set<nat>)
    requires PassesOn(e) && Step(s, e) == Some(t) && CompletionIsCurrent(s, named)
    ensures var c := t.completion;
            && (Active(c) ==> ToSet(c.list) == named && c.objMD == MasterLocation(t.store))
            && (c.Marked? || HasListed(c) ==> t.store.overview == Completing)
  {
  }

  lemma ListedStays(s: State, e: Event, t: State, n: nat, l: Location)
    requires PassesOn(e) && Step(s, e) == Some(t) && HasListed(t.completion) && Holds(s, Part(n), l)
    requires e.CompleteList? || Holds(s, Snapshot(n), l)
    ensures Holds(t, Snapshot(n), l)
  {
  }

  lemma NothingTwiceStays(s: State, e: Event, t: State)
    requires (PassesOn(e) || e.PutWriteData?) && Step(s, e) == Some(t) && NothingTwice(s)
    ensures NothingTwice(t)
  {
    if IsPutStep(e) {
      PutTwice(s, e, t);
    }
  }

  lemma PutTwice(s: State, e: Event, t: State)
    requires IsPutStep(e) && Step(s, e) == Some(t) && NothingTwice(s)
    ensures NothingTwice(t)
  {
  }

  /** Everything that passes locations on keeps the invariant. */
  lemma PassesOnKeeps(s: State, e: Event, t: State, base: set<Location>, named: set<nat>)
    requires PassesOn(e) && CopiesMaster(s) && Step(s, e) == Some(t) && Inv(s, base, named)
    ensures Inv(t, base, named)
  {
    PassesOnShares(s, e, t, base, named);
    PassesOnIssued(s, e, t, base, named);
    OpenStays(s, e, t, base);
    CurrentStays(s, e, t, base, named);
    NothingTwiceStays(s, e, t);
  }

  // ----- new data

  lemma NewDataIsWriters(s: State, e: Event, t: State, base: set<Location>, h: Holder, l: Location)
    requires e.PutWriteData? && Step(s, e) == Some(t) && HeldIsIssued(s, base) && Holds(t, h, l) && l in e.data
    ensures h == Writer(e.pid)
  {
    assert l !in s.store.issued;
    assert !Holds(s, h, l);
  }

  lemma OldDataStays(s: State, e: Event, t: State, h: Holder, l: Location)
    requires e.PutWriteData? && Step(s, e) == Some(t) && l !in e.data
    ensures Holds(t, h, l) ==> Holds(s, h, l)
  {
  }

  lemma WriteDataPair(s: State, e: Event, t: State, named: set<nat>, a: Holder, b: Holder)
    requires e.PutWriteData? && Step(s, e) == Some(t) && MayShare(s, named, a, b)
    ensures MayShare(t, named, a, b)
  {
  }

  lemma WriteDataShares(s: State, e: Event, t: State, base: set<Location>, named: set<nat>)
    requires e.PutWriteData? && Step(s, e) == Some(t) && Inv(s, base, named)
    ensures SharingIsAllowed(t, named) && HeldIsIssued(t, base)
  {
    forall a, b, l | Holds(t, a, l) && Holds(t, b, l)
      ensures MayShare(t, named, a, b)
    {
      if l in e.data {
        NewDataIsWriters(s, e, t, base, a, l);
        NewDataIsWriters(s, e, t, base, b, l);
      } else {
        OldDataStays(s, e, t, a, l);
        OldDataStays(s, e, t, b, l);
        assert MayShare(s, named, a, b);
        WriteDataPair(s, e, t, named, a, b);
      }
    }
    forall h, l | Holds(t, h, l)
      ensures l in t.store.issued && (OfUpload(h) ==> l !in base)
    {
      if l in e.data {
        NewDataIsWriters(s, e, t, base, h, l);
      } else {
        OldDataStays(s, e, t, h, l);
      }
    }
  }

  lemma WriteDataKeeps(s: State, e: Event, t: State, base: set<Location>, named: set<nat>)
    requires e.PutWriteData? && Step(s, e) == Some(t) && Inv(s, base, named)
    ensures Inv(t, base, named)
  {
    WriteDataShares(s, e, t, base, named);
    NothingTwiceStays(s, e, t);
    WriteDataInStep(s, e, t, base, named);
  }

  lemma WriteDataInStep(s: State, e: Event, t: State, base: set<Location>, named: set<nat>)
    requires e.PutWriteData? && Step(s, e) == Some(t) && OpenMeansUnlisted(s, base) && CompletionIsCurrent(s, named)
    ensures OpenMeansUnlisted(t, base) && CompletionIsCurrent(t, named)
  {
    assert forall v: nat, l :: Holds(t, Object(v), l) ==> Holds(s, Object(v), l);
    assert forall n: nat, l :: Holds(t, Part(n), l) ==> Holds(s, Part(n), l);
    assert forall n: nat, l :: Holds(s, Snapshot(n), l) ==> Holds(t, Snapshot(n), l);
    assert forall l :: Holds(t, NullKey, l) ==> Holds(s, NullKey, l);
  }

  // ----- completion events

  /** A new attempt may name more parts than the one before. */
  lemma CompleteReadKeeps(s: State, e: Event, t: State, base: set<Location>, named: set<nat>)
    requires e.CompleteReadObject? && named <= ToSet(e.parts)
    requires Step(s, e) == Some(t) && Inv(s, base, named)
    ensures Inv(t, base, ToSet(e.parts))
  {
    assert forall h, l :: Holds(t, h, l) ==> Holds(s, h, l);
  }

  /** Each committed location comes from a listed part. */
  lemma {:induction false} LocateFrom(list: seq<nat>, parts: map<nat, seq<Location>>, l: Location) returns (n: nat)
    requires forall n <- list :: n in parts
    requires l in Locate(list, parts)
    ensures n in list && l in parts[n]
  {
    if l in parts[list[0]] {
      n := list[0];
    } else {
      n := LocateFrom(list[1..], parts, l);
    }
  }

  /** Each location of a listed part is committed. */
  lemma {:induction false} LocateAll(list: seq<nat>, parts: map<nat, seq<Location>>, n: nat, l: Location)
    requires forall n <- list :: n in parts
    requires n in list && l in parts[n]
    ensures l in Locate(list, parts)
  {
    if n != list[0] {
      LocateAll(list[1..], parts, n, l);
    }
  }

  /** When the replay test lets the commit through, no earlier version holds data of the listed
      parts, whether as listed or as they are now. */
  lemma CommittedIsNew(s: State, base: set<Location>, named: set<nat>, v: nat, n: nat, l: Location)
    requires Inv(s, base, named) && s.completion.Prepared? && ValidList(s.completion.list, s.completion.snapshot)
    requires !IsReplay(s.completion.objMD, Locate(s.completion.list, s.completion.snapshot))
    requires Holds(s, Object(v), l)
    ensures !Holds(s, Part(n), l)
    ensures Holds(s, Snapshot(n), l) ==> n !in s.completion.list
  {
    var c := s.completion;
    if Holds(s, Snapshot(n), l) || Holds(s, Part(n), l) {
      assert Holds(s, Snapshot(n), l);
      assert MayShare(s, named, Object(v), Snapshot(n));
      assert n in ToSet(c.list);
      LocateAll(c.list, c.snapshot, n, l);
      assert false;
    }
  }

  /** Holder o gave the location to holder h in the commit. */
  ghost predicate Gave(s: State, e: Event, t: State, h: Holder, o: Holder)
    requires e.CompleteCommit? && s.completion.Prepared? && t.completion.Cleanup?
  {
    match h
    case Object(v) => if v == e.vid then o.Snapshot? && o.n in s.completion.list else o == h
    case Extra => o.Snapshot? && o.n !in s.completion.list && o.n in t.completion.keys
    case Replaced => if o.Object? then o.v !in t.store.versions else o.NullKey? && t.store.nullKey.None?
    case NullKey => o.NullKey? || (o.Object? && o.v !in t.store.versions && t.completion.replaced == {})
    case _ => o == h
  }

  /** Who held a location before the commit. */
  lemma BeforeCommit(s: State, e: Event, t: State, base: set<Location>, named: set<nat>, enabled: bool, h: Holder, l: Location)
    returns (o: Holder)
    requires e.CompleteCommit? && Step(s, e) == Some(t) && Inv(s, base, named) && PlanFits(s, enabled)
    requires !IsReplay(s.completion.objMD, Locate(s.completion.list, s.completion.snapshot))
    requires Holds(t, h, l)
    ensures Holds(s, o, l) && Gave(s, e, t, h, o)
  {
    var c := s.completion;
    match h
    case Object(v) =>
      if v == e.vid {
        var n := LocateFrom(c.list, c.snapshot, l);
        o := Snapshot(n);
      } else {
        o := h;
      }
    case Extra =>
      var n :| n in c.snapshot && n !in c.list && l in c.snapshot[n];
      o := Snapshot(n);
    case Replaced => o := if c.plan == Replace then Object(s.store.master.value) else NullKey;
    case NullKey => o := if InNullMaster(s.store, l) then Object(s.store.master.value) else NullKey;
    case _ => o := h;
  }

  lemma CommitPair(s: State, e: Event, t: State, named: set<nat>, a: Holder, a': Holder, b: Holder, b': Holder, l: Location)
    requires e.CompleteCommit? && Step(s, e) == Some(t)
    requires Holds(t, a, l) && Holds(t, b, l) && Gave(s, e, t, a, a') && Gave(s, e, t, b, b')
    requires MayShare(s, named, a', b') && MayShare(s, named, b', a')
    requires a'.Object? ==> !b'.Part? && (b'.Snapshot? ==> b'.n !in s.completion.list)
    requires b'.Object? ==> !a'.Part? && (a'.Snapshot? ==> a'.n !in s.completion.list)
    requires ToSet(s.completion.list) == named
    ensures MayShare(t, named, a, b)
  {
  }

  lemma CommitShares(s: State, e: Event, t: State, base: set<Location>, named: set<nat>, enabled: bool)
    requires e.CompleteCommit? && Step(s, e) == Some(t) && Inv(s, base, named) && PlanFits(s, enabled)
    requires !IsReplay(s.completion.objMD, Locate(s.completion.list, s.completion.snapshot))
    ensures SharingIsAllowed(t, named)
  {
    forall a, b, l | Holds(t, a, l) && Holds(t, b, l)
      ensures MayShare(t, named, a, b)
    {
      var a' := BeforeCommit(s, e, t, base, named, enabled, a, l);
      var b' := BeforeCommit(s, e, t, base, named, enabled, b, l);
      NewToOthers(s, base, named, a', b', l);
      NewToOthers(s, base, named, b', a', l);
      CommitPair(s, e, t, named, a, a', b, b', l);
    }
  }

  lemma NewToOthers(s: State, base: set<Location>, named: set<nat>, a: Holder, b: Holder, l: Location)
    requires Inv(s, base, named) && s.completion.Prepared? && ValidList(s.completion.list, s.completion.snapshot)
    requires !IsReplay(s.completion.objMD, Locate(s.completion.list, s.completion.snapshot))
    requires Holds(s, a, l) && Holds(s, b, l)
    ensures MayShare(s, named, a, b)
    ensures a.Object? ==> !b.Part? && (b.Snapshot? ==> b.n !in s.completion.list)
  {
    if a.Object? && (b.Part? || b.Snapshot?) {
      CommittedIsNew(s, base, named, a.v, b.n, l);
    }
  }

  lemma NoDuplicatesJoins(a: seq<Location>, b: seq<Location>)
    requires NoDuplicates(a) && NoDuplicates(b) && Disjoint(a, b)
    ensures NoDuplicates(a + b)
  {
    forall i, j | 0 <= i < j < |a + b|
      ensures (a + b)[i] != (a + b)[j]
    {
      if i < |a| <= j {
        assert a[i] in a && b[j - |a|] in b;
      }
    }
  }

  /** The locations of a list of parts are distinct when those of the stored parts are. */
  lemma {:induction false} LocateNoDuplicates(list: seq<nat>, parts: map<nat, seq<Location>>)
    requires Ascending(list) && forall n <- list :: n in parts
    requires forall n :: n in parts ==> NoDuplicates(parts[n])
    requires forall m, n, l :: m in parts && n in parts && m != n && l in parts[m] ==> l !in parts[n]
    ensures NoDuplicates(Locate(list, parts))
  {
    if list != [] {
      LocateNoDuplicates(list[1..], parts);
      var first, rest := parts[list[0]], Locate(list[1..], parts);
      forall l | l in first
        ensures l !in rest
      {
        if l in rest {
          var n := LocateFrom(list[1..], parts, l);
        }
      }
      NoDuplicatesJoins(first, rest);
    }
  }

  /** Who held a location before a replay was found. */
  lemma BeforeReplay(s: State, e: Event, t: State, h: Holder, l: Location) returns (o: Holder)
    requires e.CompleteCommit? && Step(s, e) == Some(t) && Holds(t, h, l)
    requires IsReplay(s.completion.objMD, Locate(s.completion.list, s.completion.snapshot))
    ensures Holds(s, o, l)
    ensures if h == Extra then o.Snapshot? && o.n !in s.completion.list && o.n in t.completion.keys else o == h && h != Replaced
  {
    var c := s.completion;
    o := h;
    if h == Extra {
      var n :| n in c.snapshot && n !in c.list && l in c.snapshot[n];
      o := Snapshot(n);
    }
  }

  lemma ReplayShares(s: State, e: Event, t: State, base: set<Location>, named: set<nat>)
    requires e.CompleteCommit? && Step(s, e) == Some(t) && Inv(s, base, named)
    requires IsReplay(s.completion.objMD, Locate(s.completion.list, s.completion.snapshot))
    ensures SharingIsAllowed(t, named)
  {
    forall a, b, l | Holds(t, a, l) && Holds(t, b, l)
      ensures MayShare(t, named, a, b)
    {
      var a' := BeforeReplay(s, e, t, a, l);
      var b' := BeforeReplay(s, e, t, b, l);
      assert MayShare(s, named, a', b') && MayShare(s, named, b', a');
    }
  }

  lemma ReplayKeeps(s: State, e: Event, t: State, base: set<Location>, named: set<nat>)
    requires e.CompleteCommit? && Step(s, e) == Some(t) && Inv(s, base, named)
    requires IsReplay(s.completion.objMD, Locate(s.completion.list, s.completion.snapshot))
    ensures Inv(t, base, named)
  {
    ReplayShares(s, e, t, base, named);
    forall h, l | Holds(t, h, l)
      ensures l in t.store.issued && (OfUpload(h) ==> l !in base)
    {
      var o := BeforeReplay(s, e, t, h, l);
    }
  }

  lemma CommitNothingTwice(s: State, e: Event, t: State, base: set<Location>, named: set<nat>)
    requires e.CompleteCommit? && Step(s, e) == Some(t) && Inv(s, base, named)
    ensures NothingTwice(t)
  {
    var c := s.completion;
    forall m, n, l | m in c.snapshot && n in c.snapshot && m != n && l in c.snapshot[m]
      ensures l !in c.snapshot[n]
    {
      assert Holds(s, Snapshot(m), l);
      assert !MayShare(s, named, Snapshot(m), Snapshot(n));
      assert l in c.snapshot[n] ==> Holds(s, Snapshot(n), l);
    }
    LocateNoDuplicates(c.list, c.snapshot);
  }

  lemma CommitKeeps(s: State, e: Event, t: State, base: set<Location>, named: set<nat>, enabled: bool)
    requires e.CompleteCommit? && Step(s, e) == Some(t) && Inv(s, base, named) && PlanFits(s, enabled)
    ensures Inv(t, base, named)
  {
    if IsReplay(s.completion.objMD, Locate(s.completion.list, s.completion.snapshot)) {
      ReplayKeeps(s, e, t, base, named);
    } else {
      CommitShares(s, e, t, base, named, enabled);
      CommitNothingTwice(s, e, t, base, named);
      assert HeldIsIssued(t, base) by {
        forall h, l | Holds(t, h, l)
          ensures l in t.store.issued && (OfUpload(h) ==> l !in base)
        {
          var o := BeforeCommit(s, e, t, base, named, enabled, h, l);
        }
      }
    }
  }

  // ----- another write of the key

  /** Another request may write the key as long as no completion has begun: everything that it
      replaces is older than the upload. */
  lemma OtherPutShares(s: State, e: Event, t: State, base: set<Location>, named: set<nat>)
    requires e.OtherPut? && s.store.overview == Open && s.completion.Idle?
    requires Step(s, e) == Some(t) && Inv(s, base, named) && PlanFits(s, false)
    ensures SharingIsAllowed(t, named)
  {
    forall a, b, l | Holds(t, a, l) && Holds(t, b, l)
      ensures MayShare(t, named, a, b)
    {
      var a' := BeforeOtherPut(s, e, t, base, named, a, l);
      var b' := BeforeOtherPut(s, e, t, base, named, b, l);
      if l !in e.data {
        assert MayShare(s, named, a'.value, b'.value) && MayShare(s, named, b'.value, a'.value);
        OtherPutPair(s, e, t, base, named, a, a'.value, b, b'.value, l);
      }
    }
  }

  lemma OtherPutPair(s: State, e: Event, t: State, base: set<Location>, named: set<nat>,
                     a: Holder, a': Holder, b: Holder, b': Holder, l: Location)
    requires e.OtherPut? && s.completion.Idle? && Step(s, e) == Some(t) && l !in e.data
    requires WasHeldBy(s, t, base, a, a', l) && WasHeldBy(s, t, base, b, b', l) && a != Object(e.vid) && b != Object(e.vid)
    requires MayShare(s, named, a', b') && MayShare(s, named, b', a')
    requires OfUpload(a') || OfUpload(b') ==> l !in base
    requires Holds(t, a, l) && Holds(t, b, l) && Holds(s, a', l) && Holds(s, b', l)
    ensures MayShare(t, named, a, b)
  {
  }

  /** Trash and the null key may have come from a version that is gone, and is older than the upload. */
  ghost predicate WasHeldBy(s: State, t: State, base: set<Location>, h: Holder, o: Holder, l: Location) {
    if o == h then h.Object? ==> l in base
    else
      && l in base
      && (if o.Object? then o.v !in t.store.versions else o.NullKey? && t.store.nullKey.None?)
      && ((h.Trash? && l !in s.store.deleted) || (h.NullKey? && o.Object? && t.store.deleted == s.store.deleted))
  }

  /** Who held a location before the other write; nobody if it is new. */
  lemma BeforeOtherPut(s: State, e: Event, t: State, base: set<Location>, named: set<nat>, h: Holder, l: Location)
    returns (o: Option<Holder>)
    requires e.OtherPut? && s.store.overview == Open && s.completion.Idle?
    requires Step(s, e) == Some(t) && Inv(s, base, named) && PlanFits(s, false) && Holds(t, h, l)
    ensures o.None? <==> l in e.data
    ensures o.None? ==> h == Object(e.vid) && l !in s.store.issued
    ensures o.Some? ==> Holds(s, o.value, l)
    ensures o.Some? ==> h != Object(e.vid) && WasHeldBy(s, t, base, h, o.value, l)
  {
    if h == Object(e.vid) {
      o := None;
    } else if h == Trash && l !in s.store.deleted {
      o := Some(if ProcessVersioningState(s.store) == Replace then Object(s.store.master.value) else NullKey);
    } else if h == NullKey && InNullMaster(s.store, l) {
      o := Some(Object(s.store.master.value));
    } else {
      o := Some(h);
    }
    if o.Some? {
      assert Holds(s, o.value, l);
      assert l in s.store.issued;
    }
  }

  lemma OtherPutInStep(s: State, e: Event, t: State, base: set<Location>, named: set<nat>)
    requires e.OtherPut? && s.store.overview == Open && s.completion.Idle?
    requires Step(s, e) == Some(t) && Inv(s, base, named) && PlanFits(s, false)
    ensures InStep(t, base + ToSet(e.data), named)
  {
    assert forall v: nat, l :: Holds(t, Object(v), l) ==> Holds(s, Object(v), l) || l in e.data;
    forall l | Holds(t, NullKey, l)
      ensures l in base
    {
      assert Holds(s, if InNullMaster(s.store, l) then Object(s.store.master.value) else NullKey, l);
    }
  }

  lemma OtherPutKeeps(s: State, e: Event, t: State, base: set<Location>, named: set<nat>)
    requires e.OtherPut? && s.store.overview == Open && s.completion.Idle?
    requires Step(s, e) == Some(t) && Inv(s, base, named) && PlanFits(s, false)
    ensures Inv(t, base + ToSet(e.data), named)
  {
    OtherPutShares(s, e, t, base, named);
    OtherPutInStep(s, e, t, base, named);
    assert HeldIsIssued(t, base + ToSet(e.data)) by {
      forall h, l | Holds(t, h, l)
        ensures l in t.store.issued && (OfUpload(h) ==> l !in base + ToSet(e.data))
      {
        var o := BeforeOtherPut(s, e, t, base, named, h, l);
      }
    }
  }

  // ----- the plan of the completion

  /** Whether an attempt has begun while versioning was enabled. */
  predicate EnabledNow(s: State, e: Event, enabled: bool) {
    enabled || (e.CompleteReadObject? && s.store.versioning == Enabled)
  }

  lemma NullKeyIsNotListed(s: State, named: set<nat>, l: Location)
    requires SharingIsAllowed(s, named) && s.completion.Prepared? && ValidList(s.completion.list, s.completion.snapshot)
    requires Holds(s, NullKey, l)
    ensures l !in Locate(s.completion.list, s.completion.snapshot)
  {
    if l in Locate(s.completion.list, s.completion.snapshot) {
      var n := LocateFrom(s.completion.list, s.completion.snapshot, l);
      assert Holds(s, Snapshot(n), l);
      assert false;
    }
  }

  lemma CommitPlan(s: State, e: Event, t: State, base: set<Location>, named: set<nat>, enabled: bool)
    requires e.CompleteCommit? && Step(s, e) == Some(t) && Inv(s, base, named) && PlanFits(s, enabled)
    ensures PlanFits(t, enabled)
  {
    if !enabled {
      forall l | InNullKey(t.store, l)
        ensures !InNullMaster(t.store, l)
      {
        assert Holds(s, NullKey, l);
        NullKeyIsNotListed(s, named, l);
      }
    }
  }

  lemma NoCopyStays(a: Store, b: Store)
    requires NoCopy(a) && b.versions == a.versions && b.master == a.master && b.nullKey == a.nullKey
    ensures NoCopy(b)
  {
    assert forall l :: InNullKey(b, l) ==> InNullKey(a, l);
  }

  lemma ReadPlan(s: State, e: Event, t: State, enabled: bool)
    requires e.CompleteReadObject? && Step(s, e) == Some(t) && PlanFits(s, enabled)
    requires enabled ==> s.store.versioning != Suspended
    ensures PlanFits(t, EnabledNow(s, e, enabled))
  {
  }

  lemma SamePlan(s: State, e: Event, t: State, enabled: bool)
    requires !e.OtherPut? && !e.CompleteCommit? && !e.CompleteReadObject? && Step(s, e) == Some(t) && PlanFits(s, enabled)
    ensures PlanFits(t, enabled)
  {
    if !enabled && !e.CompletePrepare? {
      NoCopyStays(s.store, t.store);
    }
  }

  /** The plan keeps fitting, as long as no attempt begins in a suspended bucket after one that began
      while versioning was enabled. */
  lemma PlanStays(s: State, e: Event, t: State, base: set<Location>, named: set<nat>, enabled: bool)
    requires !e.OtherPut? && Step(s, e) == Some(t) && Inv(s, base, named) && PlanFits(s, enabled)
    requires e.CompleteReadObject? && enabled ==> s.store.versioning != Suspended
    ensures PlanFits(t, EnabledNow(s, e, enabled))
  {
    if e.CompleteCommit? {
      CommitPlan(s, e, t, base, named, enabled);
    } else if e.CompleteReadObject? {
      ReadPlan(s, e, t, enabled);
    } else {
      SamePlan(s, e, t, enabled);
    }
  }

  lemma OtherPutPlan(s: State, e: Event, t: State, base: set<Location>, named: set<nat>)
    requires e.OtherPut? && s.completion.Idle? && Step(s, e) == Some(t) && Inv(s, base, named) && PlanFits(s, false)
    ensures PlanFits(t, false)
  {
    forall l | InNullKey(t.store, l)
      ensures !InNullMaster(t.store, l)
    {
      assert InNullKey(s.store, l) ==> Holds(s, NullKey, l);
    }
  }
}
