/** A multi-object delete request as a whole: which entries are in play, and that every requested
    entry is answered exactly once. */
module DeleteRequest {
  import opened Wrappers
  import opened DeleteEntry
  import DeleteJob

  // ----- the request: which entries are in play at all

  datatype Authorization = Authorization(isAllowed: bool, arn: string, versionId: string)

  datatype VaultAnswer = BlanketDenied | VaultError(error: string) | PerObject(results: seq<Authorization>)

  /** The entries, by what becomes of them before the bucket is looked at. */
  datatype Split = Split(refused: seq<Entry>, inPlay: seq<Entry>, internal: seq<Entry>)

  function IndexOf(s: string, c: char): (i: int)
    ensures -1 <= i < |s|
    ensures i >= 0 ==> s[i] == c && c !in s[..i]
    ensures i == -1 ==> c !in s
  {
    if s == "" then -1
    else if s[0] == c then 0
    else
      var i := IndexOf(s[1..], c);
      assert i >= 0 ==> s[..i + 1] == [s[0]] + s[1..][..i];
      if i == -1 then -1 else i + 1
  }

  predicate GoodArn(a: Authorization) {
    IndexOf(a.arn, '/') >= 0
  }

  /** The entry that an authorization is about. */
  function EntryOf(a: Authorization): Entry
    requires GoodArn(a)
  {
    Entry(a.arn[IndexOf(a.arn, '/') + 1..], a.versionId)
  }

  function EntriesOf(results: seq<Authorization>): seq<Entry>
    requires forall a <- results :: GoodArn(a)
  {
    if results == [] then [] else EntriesOf(results[..|results| - 1]) + [EntryOf(results[|results| - 1])]
  }

  /** Vault answers in the order of the request, with the key behind the first slash of the ARN. */
  ghost predicate VaultEchoes(entries: seq<Entry>, results: seq<Authorization>) {
    && |results| == |entries|
    && forall i :: 0 <= i < |entries| ==>
         results[i].versionId == entries[i].versionId && ArnOf(results[i].arn, entries[i].key)
  }

  ghost predicate ArnOf(arn: string, key: string) {
    exists bucket: string :: '/' !in bucket && arn == bucket + "/" + key
  }

  lemma {:induction false} IndexOfIs(s: string, c: char, i: nat)
    requires i < |s| && s[i] == c && c !in s[..i]
    ensures IndexOf(s, c) == i
  {
    if i > 0 {
      assert s[0] == s[..i][0] && s[..i][1..] == s[1..][..i - 1];
      IndexOfIs(s[1..], c, i - 1);
    }
  }

  lemma ArnGivesKey(arn: string, key: string)
    requires ArnOf(arn, key)
    ensures IndexOf(arn, '/') >= 0 && arn[IndexOf(arn, '/') + 1..] == key
  {
    var bucket: string :| '/' !in bucket && arn == bucket + "/" + key;
    assert arn[..|bucket|] == bucket && arn[|bucket|] == '/' && arn[|bucket| + 1..] == key;
    IndexOfIs(arn, '/', |bucket|);
  }

  lemma {:induction false} EchoedEntries(entries: seq<Entry>, results: seq<Authorization>)
    requires VaultEchoes(entries, results)
    ensures (forall a <- results :: GoodArn(a)) && EntriesOf(results) == entries
  {
    forall i | 0 <= i < |results|
      ensures GoodArn(results[i]) && EntryOf(results[i]) == entries[i]
    {
      ArnGivesKey(results[i].arn, entries[i].key);
    }
    EntriesAre(entries, results);
  }

  lemma {:induction false} EntriesAre(entries: seq<Entry>, results: seq<Authorization>)
    requires |results| == |entries| && (forall a <- results :: GoodArn(a))
    requires forall i :: 0 <= i < |results| ==> EntryOf(results[i]) == entries[i]
    ensures EntriesOf(results) == entries
  {
    if results != [] {
      var k := |results| - 1;
      EntriesAre(entries[..k], results[..k]);
    }
  }

  /** Allowed entries are in play, unless their key is one that the server keeps for itself; the
      others are errors. */
  function Append(split: Split, a: Authorization, internalKeys: set<string>): Split
    requires GoodArn(a)
  {
    if !a.isAllowed then split.(refused := split.refused + [EntryOf(a)])
    else if EntryOf(a).key in internalKeys then split.(internal := split.internal + [EntryOf(a)])
    else split.(inPlay := split.inPlay + [EntryOf(a)])
  }

  function SplitOf(results: seq<Authorization>, internalKeys: set<string>): Split
    requires forall a <- results :: GoodArn(a)
  {
    if results == [] then Split([], [], [])
    else Append(SplitOf(results[..|results| - 1], internalKeys), results[|results| - 1], internalKeys)
  }

  ghost function EntriesIn(split: Split): multiset<Entry> {
    multiset(split.refused) + multiset(split.inPlay) + multiset(split.internal)
  }

  lemma AppendKeeps(split: Split, a: Authorization, internalKeys: set<string>)
    requires GoodArn(a)
    ensures EntriesIn(Append(split, a, internalKeys)) == EntriesIn(split) + multiset{EntryOf(a)}
  {
  }

  /** The split loses no entry and doubles none. */
  lemma {:induction false} SplitKeepsEntries(results: seq<Authorization>, internalKeys: set<string>)
    requires forall a <- results :: GoodArn(a)
    ensures EntriesIn(SplitOf(results, internalKeys)) == multiset(EntriesOf(results))
  {
    if results != [] {
      var k := |results| - 1;
      SplitKeepsEntries(results[..k], internalKeys);
      AppendKeeps(SplitOf(results[..k], internalKeys), results[k], internalKeys);
    }
  }

  /** Vault has answered for each entry, with an ARN that holds a key. */
  predicate Usable(objects: seq<Entry>, results: seq<Authorization>) {
    |results| == |objects| && forall a <- results :: GoodArn(a)
  }

  /** An entry is in each list of the split exactly if some answer puts it there. */
  ghost predicate InItsList(split: Split, results: seq<Authorization>, internalKeys: set<string>, e: Entry)
    requires forall a <- results :: GoodArn(a)
  {
    && (e in split.refused <==> exists a <- results :: !a.isAllowed && EntryOf(a) == e)
    && (e in split.inPlay <==> e.key !in internalKeys && exists a <- results :: a.isAllowed && EntryOf(a) == e)
    && (e in split.internal <==> e.key in internalKeys && exists a <- results :: a.isAllowed && EntryOf(a) == e)
  }

  lemma {:induction false} SplitHolds(results: seq<Authorization>, internalKeys: set<string>, e: Entry)
    requires forall a <- results :: GoodArn(a)
    ensures InItsList(SplitOf(results, internalKeys), results, internalKeys, e)
  {
    if results != [] {
      var k := |results| - 1;
      SplitHolds(results[..k], internalKeys, e);
      assert forall a :: a in results <==> a in results[..k] || a == results[k];
    }
  }

  function IntoErrors(entries: seq<Entry>): seq<ErrorResult> {
    seq(|entries|, i requires 0 <= i < |entries| => ErrorResult(entries[i], "AccessDenied"))
  }

  /** What the policy check comes to. A requester that is an account needs none, and keeps no key
      from itself. */
  function PolicyResult(objects: seq<Entry>, nonAccountUser: bool, vault: VaultAnswer, internalKeys: set<string>): Result<Split> {
    if !nonAccountUser then Ok(Split([], objects, []))
    else match vault
      case BlanketDenied => Ok(Split(objects, [], []))
      case VaultError(error) => Err(error)
      case PerObject(results) =>
        if Usable(objects, results) then Ok(SplitOf(results, internalKeys))
        else Err("InternalError")
  }

  method CheckPolicies(objects: seq<Entry>, nonAccountUser: bool, vault: VaultAnswer, internalKeys: set<string>)
    returns (r: Result<Split>)
    ensures r == PolicyResult(objects, nonAccountUser, vault, internalKeys)
    ensures r.Err? <==> nonAccountUser && (vault.VaultError? || (vault.PerObject? && !Usable(objects, vault.results)))
    ensures r.Err? ==> r.error == if vault.VaultError? then vault.error else "InternalError"
    ensures r.Ok? && !(nonAccountUser && vault.PerObject?) ==> EntriesIn(r.value) == multiset(objects)
    ensures r.Ok? && !nonAccountUser ==> r.value.refused == r.value.internal == []
    ensures r.Ok? && nonAccountUser && vault.BlanketDenied? ==> r.value.inPlay == r.value.internal == []
    ensures r.Ok? && nonAccountUser && vault.PerObject? ==>
      && |vault.results| == |objects| && (forall a <- vault.results :: GoodArn(a))
      && EntriesIn(r.value) == multiset(EntriesOf(vault.results))
      && forall e :: InItsList(r.value, vault.results, internalKeys, e)
  {
    if !nonAccountUser {
      return Ok(Split([], objects, []));
    }
    match vault
    case BlanketDenied => return Ok(Split(objects, [], []));
    case VaultError(error) => return Err(error);
    case PerObject(results) =>
      if |objects| != |results| {
        return Err("InternalError");
      }
      var split := Split([], [], []);
      for i := 0 to |results|
        invariant (forall a <- results[..i] :: GoodArn(a)) && split == SplitOf(results[..i], internalKeys)
      {
        if !GoodArn(results[i]) {
          assert results[i] in results;
          return Err("InternalError");
        }
        assert results[..i + 1][..i] == results[..i] && results[..i + 1][i] == results[i];
        split := Append(split, results[i], internalKeys);
      }
      assert results[..|results|] == results;
      SplitKeepsEntries(results, internalKeys);
      forall e
        ensures InItsList(split, results, internalKeys, e)
      {
        SplitHolds(results, internalKeys, e);
      }
      return Ok(split);
  }

  // ----- the whole request

  datatype BucketAnswer = BucketError(error: string) | BucketMD(shielded: bool, authorized: bool)

  /** What the other services answer to one request; `answers` is for the entries left in play, and
      `chunkFails` for the chunks of data that are deleted at the end. */
  datatype World = World(
    vault: VaultAnswer,
    internalKeys: set<string>,
    hasOrigin: bool,
    bucket: BucketAnswer,
    deleteInternal: Result<()>,
    answers: nat -> Answers,
    chunkFails: nat -> bool)

  datatype Response =
    | NotAnswered
    | Refused(error: string)
    | Answered(errors: seq<ErrorResult>, deleted: seq<DeletedResult>, removed: int, bytes: int)

  const MAX_OBJECTS := 1000

  /** The entries that the request is about: as sent, or as Vault gives them back. */
  ghost function Requested(env: Env, objects: seq<Entry>, world: World): seq<Entry> {
    if env.nonAccountUser && world.vault.PerObject? && forall a <- world.vault.results :: GoodArn(a)
    then EntriesOf(world.vault.results) else objects
  }

  /** When Vault answers in the order of the request, these are the entries as sent. */
  lemma RequestedIsSent(env: Env, objects: seq<Entry>, world: World)
    requires env.nonAccountUser && world.vault.PerObject? ==> VaultEchoes(objects, world.vault.results)
    ensures Requested(env, objects, world) == objects
  {
    if env.nonAccountUser && world.vault.PerObject? {
      EchoedEntries(objects, world.vault.results);
    }
  }

  /** What looking at the bucket comes to: the errors so far, and the entries that stay in play. The
      bucket is not looked at when nothing is in play, unless the request has an origin. Without
      access to it, everything that was in play becomes an error. */
  function BucketResult(split: Split, world: World): Result<(seq<ErrorResult>, seq<Entry>)> {
    if split.inPlay == [] && !world.hasOrigin then Ok((IntoErrors(split.refused), []))
    else match world.bucket
      case BucketError(error) => Err(error)
      case BucketMD(shielded, authorized) =>
        if shielded then Err("NoSuchBucket")
        else if authorized then Ok((IntoErrors(split.refused), split.inPlay))
        else Ok((IntoErrors(split.refused + split.inPlay), []))
  }

  lemma ErrorsAreOfEntries(entries: seq<Entry>)
    ensures DeleteJob.EntriesOfErrors(IntoErrors(entries)) == entries
  {
  }

  /** Looking at the bucket loses no entry and doubles none. */
  lemma BucketKeepsEntries(split: Split, world: World)
    ensures var r := BucketResult(split, world);
            r.Ok? ==> multiset(DeleteJob.EntriesOfErrors(r.value.0)) + multiset(r.value.1)
                      == multiset(split.refused) + multiset(split.inPlay)
  {
    ErrorsAreOfEntries(split.refused);
    ErrorsAreOfEntries(split.refused + split.inPlay);
  }

  method CheckBucket(split: Split, world: World) returns (r: Result<(seq<ErrorResult>, seq<Entry>)>)
    ensures r == BucketResult(split, world)
    ensures r.Err? <==> (split.inPlay != [] || world.hasOrigin) && (world.bucket.BucketError? || world.bucket.shielded)
    ensures r.Err? ==> r.error == if world.bucket.BucketError? then world.bucket.error else "NoSuchBucket"
    ensures r.Ok? ==>
      && multiset(DeleteJob.EntriesOfErrors(r.value.0)) + multiset(r.value.1) == multiset(split.refused) + multiset(split.inPlay)
      && (forall e <- r.value.0 :: e.error == "AccessDenied")
      && (forall e <- split.inPlay :: e in r.value.1 <==> world.bucket == BucketMD(false, true))
  {
    BucketKeepsEntries(split, world);
    var errorResults := IntoErrors(split.refused);
    if split.inPlay == [] && !world.hasOrigin {
      return Ok((errorResults, split.inPlay));
    }
    match world.bucket
    case BucketError(error) => return Err(error);
    case BucketMD(shielded, authorized) =>
      if shielded {
        return Err("NoSuchBucket");
      }
      if split.inPlay != [] && !authorized {
        for i := 0 to |split.inPlay|
          invariant errorResults == IntoErrors(split.refused + split.inPlay[..i])
        {
          assert split.refused + split.inPlay[..i + 1] == split.refused + split.inPlay[..i] + [split.inPlay[i]];
          errorResults := errorResults + [ErrorResult(split.inPlay[i], "AccessDenied")];
        }
        assert split.inPlay[..|split.inPlay|] == split.inPlay;
        return Ok((errorResults, []));
      }
      assert split.inPlay == [] ==> split.refused + split.inPlay == split.refused;
      return Ok((errorResults, split.inPlay));
  }

  function GivenFor(inPlay: seq<Entry>, answers: nat -> Answers): (r: seq<Answers>)
    ensures |r| == |inPlay|
  {
    seq(|inPlay|, i requires 0 <= i < |inPlay| => answers(i))
  }

  /** The response reports these errors and the outcomes of the entries in play, and counts the latter. */
  ghost predicate Reports(r: Response, errors: seq<ErrorResult>, tally: Tally) {
    && r.Answered? && r.removed == tally.removed && r.bytes == tally.bytes
    && multiset(r.errors) == multiset(errors) + tally.errors && multiset(r.deleted) == tally.deleted
  }

  /** The entries in play, after the refused ones. */
  method DeleteInPlay(env: Env, refused: seq<ErrorResult>, inPlay: seq<Entry>, answers: nat -> Answers, chunkFails: nat -> bool)
    returns (r: Response)
    requires env.concurrency > 0
    ensures r == NotAnswered <==> !EveryMarkerIsStored(env, inPlay, GivenFor(inPlay, answers))
    ensures r != NotAnswered ==>
      && Reports(r, refused, Sum(EntryTallies(env, inPlay, GivenFor(inPlay, answers))))
      && multiset(DeleteJob.EntriesOfErrors(r.errors)) + multiset(DeleteJob.EntriesOfDeleted(r.deleted))
         == multiset(DeleteJob.EntriesOfErrors(refused)) + multiset(inPlay)
  {
    var given := GivenFor(inPlay, answers);
    var job := new DeleteJob.Job(env, inPlay, given, refused);
    assert job.results.errors == multiset(refused) && job.results.deleted == multiset{};
    var crashed := job.GetObjMetadataAndDelete(chunkFails);
    if crashed {
      return NotAnswered;
    }
    EveryEntryIsAnsweredOnce(env, inPlay, given);
    r := Answered(job.errorResults, job.successfullyDeleted, job.numOfObjectsRemoved, job.totalContentLengthDeleted);
  }

  // ----- which entries are refused, handled and kept for the server

  /** How many of Vault's results allow this entry, or do not allow it. */
  ghost function Count(results: seq<Authorization>, e: Entry, isAllowed: bool): nat
    requires forall a <- results :: GoodArn(a)
  {
    |set i: nat | i < |results| && Says(results[i], e, isAllowed)|
  }

  predicate Says(a: Authorization, e: Entry, isAllowed: bool)
    requires GoodArn(a)
  {
    a.isAllowed == isAllowed && EntryOf(a) == e
  }

  lemma {:induction false} CountNext(results: seq<Authorization>, e: Entry, isAllowed: bool)
    requires results != [] && forall a <- results :: GoodArn(a)
    ensures var k := |results| - 1;
            Count(results, e, isAllowed) ==
              Count(results[..k], e, isAllowed) + if results[k].isAllowed == isAllowed && EntryOf(results[k]) == e then 1 else 0
  {
    var k := |results| - 1;
    var init := results[..k];
    var before := set i: nat | i < |init| && Says(init[i], e, isAllowed);
    var now := set i: nat | i < |results| && Says(results[i], e, isAllowed);
    forall i: nat
      ensures i in now <==> i in before || (i == k && Says(results[k], e, isAllowed))
    {
      if i < k {
        assert init[i] == results[i];
      }
    }
    OneMore(before, now, k, Says(results[k], e, isAllowed));
  }

  lemma OneMore(before: set<nat>, now: set<nat>, k: nat, isIn: bool)
    requires k !in before && forall i: nat :: i in now <==> i in before || (i == k && isIn)
    ensures |now| == |before| + if isIn then 1 else 0
  {
    assert now == if isIn then before + {k} else before;
  }

  lemma {:induction false} SplitCounts(results: seq<Authorization>, internalKeys: set<string>, e: Entry)
    requires forall a <- results :: GoodArn(a)
    ensures var split := SplitOf(results, internalKeys);
            && multiset(split.refused)[e] == Count(results, e, false)
            && multiset(split.inPlay)[e] == (if e.key in internalKeys then 0 else Count(results, e, true))
            && multiset(split.internal)[e] == (if e.key in internalKeys then Count(results, e, true) else 0)
  {
    if results != [] {
      SplitCounts(results[..|results| - 1], internalKeys, e);
      CountNext(results, e, false);
      CountNext(results, e, true);
    }
  }

  /** How often an entry is refused, handled by a worker, and kept for the server: an entry is handled
      only if the requester may delete it and the bucket is open to them, and all that they may not
      delete is refused. */
  ghost predicate Shares(env: Env, objects: seq<Entry>, world: World, e: Entry, refused: nat, handled: nat, internal: nat)
    requires env.nonAccountUser && world.vault.PerObject? ==> Usable(objects, world.vault.results)
  {
    var open := world.bucket == BucketMD(false, true);
    if !env.nonAccountUser then
      && internal == 0
      && handled == (if open then multiset(objects)[e] else 0)
      && refused == (if open then 0 else multiset(objects)[e])
    else if world.vault.PerObject? then
      var denied, allowed := Count(world.vault.results, e, false), Count(world.vault.results, e, true);
      if e.key in world.internalKeys then internal == allowed && handled == 0 && refused == denied
      else internal == 0 && handled == (if open then allowed else 0) && refused == denied + if open then 0 else allowed
    else
      internal == handled == 0 && refused == multiset(objects)[e]
  }

  /** Some entry is in play, or kept for the server, before the bucket is looked at. */
  ghost predicate SomeInPlay(env: Env, world: World)
    requires env.nonAccountUser && world.vault.PerObject? ==> forall a <- world.vault.results :: GoodArn(a)
  {
    !env.nonAccountUser
    || (world.vault.PerObject? && exists a <- world.vault.results :: a.isAllowed && EntryOf(a).key !in world.internalKeys)
  }

  ghost predicate SomeInternal(env: Env, world: World)
    requires env.nonAccountUser && world.vault.PerObject? ==> forall a <- world.vault.results :: GoodArn(a)
  {
    env.nonAccountUser && world.vault.PerObject?
    && exists a <- world.vault.results :: a.isAllowed && EntryOf(a).key in world.internalKeys
  }

  lemma SplitIsSome(env: Env, objects: seq<Entry>, world: World, split: Split)
    requires PolicyResult(objects, env.nonAccountUser, world.vault, world.internalKeys) == Ok(split) && objects != []
    ensures split.inPlay != [] <==> SomeInPlay(env, world)
    ensures split.internal != [] <==> SomeInternal(env, world)
  {
    if env.nonAccountUser && world.vault.PerObject? {
      var results := world.vault.results;
      if split.inPlay != [] {
        SplitHolds(results, world.internalKeys, split.inPlay[0]);
      }
      if split.internal != [] {
        SplitHolds(results, world.internalKeys, split.internal[0]);
      }
      forall a | a in results && a.isAllowed
        ensures EntryOf(a) in split.inPlay || EntryOf(a) in split.internal
        ensures EntryOf(a) in split.internal <==> EntryOf(a).key in world.internalKeys
      {
        SplitHolds(results, world.internalKeys, EntryOf(a));
      }
    }
  }

  /** The entries that have been refused when the bucket has been looked at. */
  function RefusedOf(split: Split, world: World): seq<Entry> {
    if world.bucket == BucketMD(false, true) then split.refused else split.refused + split.inPlay
  }

  lemma BucketShares(env: Env, objects: seq<Entry>, world: World, split: Split, play: (seq<ErrorResult>, seq<Entry>))
    requires PolicyResult(objects, env.nonAccountUser, world.vault, world.internalKeys) == Ok(split)
    requires BucketResult(split, world) == Ok(play)
    ensures play.0 == IntoErrors(RefusedOf(split, world))
    ensures forall e :: Shares(env, objects, world, e,
                               multiset(RefusedOf(split, world))[e], multiset(play.1)[e], multiset(split.internal)[e])
  {
    if split.inPlay == [] {
      assert split.refused + split.inPlay == split.refused;
    }
    forall e
      ensures Shares(env, objects, world, e,
                     multiset(RefusedOf(split, world))[e], multiset(play.1)[e], multiset(split.internal)[e])
    {
      if env.nonAccountUser && world.vault.PerObject? {
        SplitCounts(world.vault.results, world.internalKeys, e);
      }
    }
  }

  /** The response is that of the refused entries and of the handled ones, one after the other. */
  ghost predicate IsResponse(env: Env, world: World, r: Response, refused: seq<Entry>, handled: seq<Entry>) {
    var tally := Sum(EntryTallies(env, handled, GivenFor(handled, world.answers)));
    && r.Answered? && r.removed == tally.removed && r.bytes == tally.bytes && multiset(r.deleted) == tally.deleted
    && multiset(r.errors) ==
         multiset(seq(|refused|, i requires 0 <= i < |refused| => ErrorResult(refused[i], "AccessDenied"))) + tally.errors
  }

  /** The workers' part of a request that is admitted. */
  method HandleAll(env: Env, objects: seq<Entry>, world: World, split: Split, play: (seq<ErrorResult>, seq<Entry>))
    returns (r: Response, ghost refused: seq<Entry>, ghost handled: seq<Entry>, ghost internal: seq<Entry>)
    requires env.concurrency > 0
    requires PolicyResult(objects, env.nonAccountUser, world.vault, world.internalKeys) == Ok(split)
    requires BucketResult(split, world) == Ok(play)
    ensures forall e :: Shares(env, objects, world, e, multiset(refused)[e], multiset(handled)[e], multiset(internal)[e])
    ensures if EveryMarkerIsStored(env, handled, GivenFor(handled, world.answers))
            then IsResponse(env, world, r, refused, handled) else r == NotAnswered
  {
    BucketShares(env, objects, world, split, play);
    refused, handled, internal := RefusedOf(split, world), play.1, split.internal;
    r := DeleteInPlay(env, play.0, play.1, world.answers, world.chunkFails);
  }

  /** For every request, and whatever order its workers come to an end in: it is refused with the error
      of the first check that fails; it is never answered exactly when some delete marker cannot be
      stored; and otherwise the response is that of the refused entries and of the handled ones. Which
      entries those are, and which are the server's own files, `Shares` says for each entry. */
  method MultiObjectDelete(env: Env, objects: seq<Entry>, world: World)
    returns (r: Response, ghost refused: seq<Entry>, ghost handled: seq<Entry>, ghost internal: seq<Entry>)
    requires env.concurrency > 0
    ensures
      if |objects| < 1 || |objects| > 1000 then r == Refused("MalformedXML")
      else if env.nonAccountUser && world.vault.VaultError? then r == Refused(world.vault.error)
      else if env.nonAccountUser && world.vault.PerObject? && !Usable(objects, world.vault.results)
      then r == Refused("InternalError")
      else if (SomeInPlay(env, world) || world.hasOrigin) && world.bucket.BucketError?
      then r == Refused(world.bucket.error)
      else if (SomeInPlay(env, world) || world.hasOrigin) && world.bucket.shielded
      then r == Refused("NoSuchBucket")
      else if SomeInternal(env, world) && world.deleteInternal.Err?
      then r == Refused(world.deleteInternal.error)
      else
        && (forall e :: Shares(env, objects, world, e, multiset(refused)[e], multiset(handled)[e], multiset(internal)[e]))
        && (if EveryMarkerIsStored(env, handled, GivenFor(handled, world.answers))
            then IsResponse(env, world, r, refused, handled) else r == NotAnswered)
  {
    refused, handled, internal := [], [], [];
    if |objects| < 1 || |objects| > MAX_OBJECTS {
      return Refused("MalformedXML"), refused, handled, internal;
    }
    var split := CheckPolicies(objects, env.nonAccountUser, world.vault, world.internalKeys);
    if split.Err? {
      return Refused(split.error), refused, handled, internal;
    }
    SplitIsSome(env, objects, world, split.value);
    var play := CheckBucket(split.value, world);
    if play.Err? {
      return Refused(play.error), refused, handled, internal;
    }
    if split.value.internal != [] && world.deleteInternal.Err? {
      return Refused(world.deleteInternal.error), refused, handled, internal;
    }
    r, refused, handled, internal := HandleAll(env, objects, world, split.value, play.value);
  }

  /** The entries of an answered request: each requested one is once among the refused, the handled and
      the server's own. */
  lemma SharesAddUp(env: Env, objects: seq<Entry>, world: World, refused: seq<Entry>, handled: seq<Entry>, internal: seq<Entry>)
    requires env.nonAccountUser && world.vault.PerObject? ==> Usable(objects, world.vault.results)
    requires forall e :: Shares(env, objects, world, e, multiset(refused)[e], multiset(handled)[e], multiset(internal)[e])
    ensures multiset(refused) + multiset(handled) + multiset(internal) == multiset(Requested(env, objects, world))
  {
    forall e
      ensures multiset(refused)[e] + multiset(handled)[e] + multiset(internal)[e] == multiset(Requested(env, objects, world))[e]
    {
      assert Shares(env, objects, world, e, multiset(refused)[e], multiset(handled)[e], multiset(internal)[e]);
      if env.nonAccountUser && world.vault.PerObject? {
        ResultsCount(world.vault.results, e);
      }
    }
  }

  lemma {:induction false} ResultsCount(results: seq<Authorization>, e: Entry)
    requires forall a <- results :: GoodArn(a)
    ensures multiset(EntriesOf(results))[e] == Count(results, e, false) + Count(results, e, true)
  {
    if results != [] {
      ResultsCount(results[..|results| - 1], e);
      CountNext(results, e, false);
      CountNext(results, e, true);
    }
  }
}
