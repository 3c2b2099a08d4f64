/** Reading object metadata with a prefetched map: when a lookup through the map gives what a direct
    lookup gives. The map is filled under key and version id, and looked up under the key alone. */
module MetadataCache {
  import opened Wrappers

  /** The metadata of an object or version; it carries its own key. */
  datatype Doc = Doc(key: string, versionId: Option<string>, isNull: bool, nullVersionId: Option<string>)

  /** What the metadata service answers to a read. */
  datatype Answer = Found(doc: Doc) | NoSuchKey | Failed(error: string)

  /** The service: the answer for a key and a version id (none for the current version), and for
      whether delete markers are wanted. */
  type Service = (string, Option<string>, bool) -> Answer

  /** Documents have the key that they are stored under. */
  ghost predicate KnowsKeys(service: Service) {
    forall key, version, marker ::
      service(key, version, marker).Found? ==> service(key, version, marker).doc.key == key
  }

  // ----- a direct lookup

  /** The null version by way of the master: the master itself, or the version it refers to. */
  function GetNullVersionFromMaster(service: Service, key: string): Result<Option<Doc>> {
    match service(key, None, false)
    case NoSuchKey => Ok(None)
    case Failed(error) => Err(error)
    case Found(master) =>
      if master.isNull || master.versionId.None? then Ok(Some(master))
      else if master.nullVersionId.None? then Ok(None)
      else match service(key, master.nullVersionId, false)
        case NoSuchKey => Ok(None)
        case Failed(error) => Err(error)
        case Found(doc) => Ok(Some(doc))
  }

  function GetDirectly(service: Service, key: string, versionId: Option<string>): Result<Option<Doc>> {
    match service(key, versionId, true)
    case Found(doc) => Ok(Some(doc))
    case NoSuchKey => if versionId == Some("null") then GetNullVersionFromMaster(service, key) else Ok(None)
    case Failed(error) => Err(error)
  }

  /** A direct lookup answers what the service answers, delete markers included. Only the version "null"
      is looked for a second time. */
  lemma DirectLookup(service: Service, key: string, versionId: Option<string>)
    ensures service(key, versionId, true).Found? ==>
      GetDirectly(service, key, versionId) == Ok(Some(service(key, versionId, true).doc))
    ensures service(key, versionId, true).Failed? ==>
      GetDirectly(service, key, versionId) == Err(service(key, versionId, true).error)
    ensures service(key, versionId, true).NoSuchKey? && versionId != Some("null") ==>
      GetDirectly(service, key, versionId) == Ok(None)
  {
  }

  /** The second look fails when a read of it fails: that of the master, or of the version it refers to. */
  lemma NullLookupFails(service: Service, key: string)
    requires service(key, Some("null"), true).NoSuchKey?
    ensures var master := service(key, None, false);
            GetDirectly(service, key, Some("null")).Err? <==>
              master.Failed?
              || (master.Found? && !master.doc.isNull && master.doc.versionId.Some? && master.doc.nullVersionId.Some?
                  && service(key, master.doc.nullVersionId, false).Failed?)
  {
  }

  /** Where the null version of a key may be kept. */
  datatype NullVersion =
    | NoObject
    | NoNullVersion(master: Doc)
    | UnderNullKey(doc: Doc)
    | IsMaster(doc: Doc)
    | Referenced(master: Doc, doc: Doc)

  /** The metadata service keeps the null version there, in the older or the newer layout. */
  ghost predicate Keeps(service: Service, key: string, place: NullVersion) {
    match place
    case NoObject =>
      service(key, Some("null"), true).NoSuchKey? && service(key, None, false).NoSuchKey?
    case NoNullVersion(master) =>
      && service(key, Some("null"), true).NoSuchKey? && service(key, None, false) == Found(master)
      && !master.isNull && master.versionId.Some? && master.nullVersionId.None?
    case UnderNullKey(doc) =>
      service(key, Some("null"), true) == Found(doc)
    case IsMaster(doc) =>
      && service(key, Some("null"), true).NoSuchKey? && service(key, None, false) == Found(doc)
      && (doc.isNull || doc.versionId.None?)
    case Referenced(master, doc) =>
      && service(key, Some("null"), true).NoSuchKey? && service(key, None, false) == Found(master)
      && !master.isNull && master.versionId.Some?
      && master.nullVersionId.Some? && service(key, master.nullVersionId, false) == Found(doc)
  }

  /** A lookup of the version "null" finds the null version in whatever layout it is kept. */
  lemma NullVersionIsFound(service: Service, key: string, place: NullVersion)
    requires Keeps(service, key, place)
    ensures GetDirectly(service, key, Some("null"))
            == Ok(if place.NoObject? || place.NoNullVersion? then None else Some(place.doc))
  {
  }

  // ----- the prefetched map

  /** What the batch read gives for one entry; the document is missing if there is none. */
  datatype Fetched = Fetched(versionId: Option<string>, doc: Option<Doc>)

  /** A template literal prints a missing version id as the word `undefined`. */
  function VersionText(versionId: Option<string>): string {
    if versionId.Some? then versionId.value else "undefined"
  }

  /** The key that a fetched document is kept under. */
  function CacheKey(f: Fetched): string
    requires f.doc.Some?
  {
    f.doc.value.key + VersionText(f.versionId)
  }

  /** The map that a batch read leaves behind: of several documents under one key, the last one. */
  function Cached(fetched: seq<Fetched>): map<string, Doc> {
    if fetched == [] then map[]
    else
      var k := |fetched| - 1;
      var before := Cached(fetched[..k]);
      if fetched[k].doc.Some? then before[CacheKey(fetched[k]) := fetched[k].doc.value] else before
  }

  method MetadataGetObjects(objMds: Result<seq<Fetched>>) returns (result: Result<map<string, Doc>>)
    ensures result == match objMds case Err(e) => Err(e) case Ok(fetched) => Ok(Cached(fetched))
  {
    if objMds.Err? {
      return Err(objMds.error);
    }
    var fetched, cache := objMds.value, map[];
    for i := 0 to |fetched|
      invariant cache == Cached(fetched[..i])
    {
      assert fetched[..i + 1][..i] == fetched[..i];
      if fetched[i].doc.Some? {
        cache := cache[CacheKey(fetched[i]) := fetched[i].doc.value];
      }
    }
    assert fetched[..|fetched|] == fetched;
    return Ok(cache);
  }

  /** Some fetched document is kept under this key. */
  ghost predicate Collides(fetched: seq<Fetched>, key: string) {
    exists i :: 0 <= i < |fetched| && fetched[i].doc.Some? && CacheKey(fetched[i]) == key
  }

  lemma CollidesOneMore(fetched: seq<Fetched>, key: string)
    requires fetched != []
    ensures var k := |fetched| - 1;
            Collides(fetched, key)
            <==> Collides(fetched[..k], key) || (fetched[k].doc.Some? && CacheKey(fetched[k]) == key)
  {
    var k := |fetched| - 1;
    if Collides(fetched[..k], key) {
      var i :| 0 <= i < k && fetched[..k][i].doc.Some? && CacheKey(fetched[..k][i]) == key;
      assert fetched[i] == fetched[..k][i];
    }
    forall i | 0 <= i < k
      ensures fetched[i] == fetched[..k][i]
    {
    }
  }

  lemma {:induction false} CachedUnder(fetched: seq<Fetched>, key: string)
    ensures key in Cached(fetched) <==> Collides(fetched, key)
    ensures key in Cached(fetched) ==> exists i :: 0 <= i < |fetched| && fetched[i].doc == Some(Cached(fetched)[key])
                                         && CacheKey(fetched[i]) == key
  {
    if fetched != [] {
      var k := |fetched| - 1;
      CachedUnder(fetched[..k], key);
      CollidesOneMore(fetched, key);
      if key in Cached(fetched[..k]) {
        var i :| 0 <= i < k && fetched[..k][i].doc == Some(Cached(fetched[..k])[key]) && CacheKey(fetched[..k][i]) == key;
        assert fetched[i] == fetched[..k][i];
      }
    }
  }

  // ----- a lookup through the map

  function MetadataGetObject(service: Service, key: string, versionId: Option<string>, cache: map<string, Doc>)
    : Result<Option<Doc>>
  {
    if key in cache then Ok(Some(cache[key])) else GetDirectly(service, key, versionId)
  }

  /** Version ids are not empty. */
  predicate HasVersionIds(fetched: seq<Fetched>) {
    forall i :: 0 <= i < |fetched| ==> fetched[i].versionId != Some("")
  }

  lemma DirectKey(service: Service, key: string, versionId: Option<string>)
    requires KnowsKeys(service)
    ensures var r := GetDirectly(service, key, versionId); r.Ok? && r.value.Some? ==> r.value.value.key == key
  {
  }

  /** For every batch and every lookup after it: the lookup through the map gives what a direct one
      gives if and only if no fetched document's key, followed by its version id, spells the key that
      is looked up. So the map never spares a read: where it answers, the answer is another key's. */
  lemma LookupIsRightExactly(service: Service, fetched: seq<Fetched>, key: string, versionId: Option<string>)
    requires KnowsKeys(service) && HasVersionIds(fetched)
    ensures MetadataGetObject(service, key, versionId, Cached(fetched)) == GetDirectly(service, key, versionId)
            <==> !Collides(fetched, key)
  {
    CachedUnder(fetched, key);
    DirectKey(service, key, versionId);
    if Collides(fetched, key) {
      var i :| 0 <= i < |fetched| && fetched[i].doc == Some(Cached(fetched)[key]) && CacheKey(fetched[i]) == key;
      assert |key| == |fetched[i].doc.value.key| + |VersionText(fetched[i].versionId)|;
    }
  }

  /** Such a collision, for any key: a request names the key, and the key followed by `undefined`. */
  lemma PlainKeysCollide(doc: Doc)
    ensures Collides([Fetched(None, Some(doc))], doc.key + "undefined")
  {
    assert [Fetched(None, Some(doc))][0].doc.Some?;
    assert CacheKey([Fetched(None, Some(doc))][0]) == doc.key + "undefined";
  }

  /** The entries of a request that a batch read is made for: the key and decoded version id. */
  datatype Wanted = Wanted(key: string, versionId: Option<string>)

  /** The batch read answers each entry with the document of its key and version id, or with none. */
  ghost predicate Answers(wanted: seq<Wanted>, fetched: seq<Fetched>) {
    && |fetched| == |wanted|
    && forall i :: 0 <= i < |wanted| ==>
         && fetched[i].versionId == wanted[i].versionId && wanted[i].versionId != Some("")
         && (fetched[i].doc.Some? ==> fetched[i].doc.value.key == wanted[i].key)
  }

  /** No key of the request is another one's key followed by its version id. */
  predicate NoConfusion(wanted: seq<Wanted>) {
    forall i, j :: 0 <= i < |wanted| && 0 <= j < |wanted| ==>
      wanted[j].key != wanted[i].key + VersionText(wanted[i].versionId)
  }

  /** Whatever the service and the batch read answer, each lookup of the request is right. */
  ghost predicate AlwaysRight(wanted: seq<Wanted>) {
    forall service, fetched, j :: KnowsKeys(service) && Answers(wanted, fetched) && 0 <= j < |wanted| ==>
      LookupIsRight(service, wanted[j], fetched)
  }

  ghost predicate LookupIsRight(service: Service, w: Wanted, fetched: seq<Fetched>) {
    MetadataGetObject(service, w.key, w.versionId, Cached(fetched)) == GetDirectly(service, w.key, w.versionId)
  }

  lemma RightWithoutConfusion(service: Service, wanted: seq<Wanted>, fetched: seq<Fetched>, j: nat)
    requires KnowsKeys(service) && Answers(wanted, fetched) && NoConfusion(wanted) && j < |wanted|
    ensures LookupIsRight(service, wanted[j], fetched)
  {
    forall i | 0 <= i < |fetched| && fetched[i].doc.Some?
      ensures CacheKey(fetched[i]) != wanted[j].key
    {
      assert fetched[i].doc.value.key == wanted[i].key;
    }
    LookupIsRightExactly(service, fetched, wanted[j].key, wanted[j].versionId);
  }

  /** A service that has an object under every key. */
  function Plain(key: string): Doc {
    Doc(key, None, true, None)
  }

  lemma ConfusionFails(wanted: seq<Wanted>, i: nat, j: nat)
    requires forall k :: 0 <= k < |wanted| ==> wanted[k].versionId != Some("")
    requires i < |wanted| && j < |wanted| && wanted[j].key == wanted[i].key + VersionText(wanted[i].versionId)
    ensures !AlwaysRight(wanted)
  {
    var service: Service := (key, version, marker) => Found(Plain(key));
    var fetched := seq(|wanted|, k requires 0 <= k < |wanted| => Fetched(wanted[k].versionId, Some(Plain(wanted[k].key))));
    assert Answers(wanted, fetched) && KnowsKeys(service);
    assert fetched[i].doc.Some? && CacheKey(fetched[i]) == wanted[j].key;
    LookupIsRightExactly(service, fetched, wanted[j].key, wanted[j].versionId);
  }

  /** The condition on the request alone: every lookup of the request is right, whatever is answered,
      if and only if no key of the request is another one's key followed by its version id. */
  lemma RequestIsRightExactly(wanted: seq<Wanted>)
    requires forall k :: 0 <= k < |wanted| ==> wanted[k].versionId != Some("")
    ensures AlwaysRight(wanted) <==> NoConfusion(wanted)
  {
    if NoConfusion(wanted) {
      forall service, fetched, j | KnowsKeys(service) && Answers(wanted, fetched) && 0 <= j < |wanted|
        ensures LookupIsRight(service, wanted[j], fetched)
      {
        RightWithoutConfusion(service, wanted, fetched, j);
      }
    } else {
      var i, j :| 0 <= i < |wanted| && 0 <= j < |wanted| && wanted[j].key == wanted[i].key + VersionText(wanted[i].versionId);
      ConfusionFails(wanted, i, j);
    }
  }
}
