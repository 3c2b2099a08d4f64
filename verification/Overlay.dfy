/** The managed configuration overlay in polling mode: every process polls the remote service, applies
    what it finds, and keeps the newest overlay in a database that all processes share. */
module Overlay {
  import opened Wrappers

  /** An overlay; one without a version stands for "no overlay yet". */
  datatype Overlay = Overlay(version: Option<int>, conf: string)

  const EMPTY := Overlay(None, "")

  /** The management database: the latest version, and the overlays by their version. */
  datatype Store = Store(latest: Option<int>, overlays: map<int, Overlay>)

  /** How far a process has come in its round. */
  datatype Stage =
    | Idle
    | SawLatest(version: int)
    | Loaded(cached: Overlay)
    | Patched(cached: Overlay)
    | Fetched(cached: Overlay, remote: Overlay)
    | HalfSaved(remote: Overlay)
    | Saved(remote: Overlay)

  /** `live` is the version that the process runs under; before the first one is applied there is none. */
  datatype Process = Process(stage: Stage, live: Option<int>)

  datatype State = State(store: Store, processes: map<nat, Process>)

  datatype Event =
    | ReadLatest(p: nat)
    | ReadOverlay(p: nat)
    | Patch(p: nat)
    | Fetch(p: nat, remote: Overlay)
    | SaveOverlay(p: nat)
    | SaveLatest(p: nat)
    | Fail(p: nat)
    | Restart(p: nat, configured: Option<int>)

  // ----- the pieces of configuration.js

  predicate RemoteOverlayIsNewer(cached: Overlay, remote: Overlay) {
    remote.version.Some? && (cached.version.None? || remote.version.value > cached.version.value)
  }

  /** The live version after an overlay has been applied. */
  function PatchedVersion(live: Option<int>, overlay: Overlay): (r: Option<int>)
    ensures (r == live || r == overlay.version) && !Newer(live, r) && !Newer(overlay.version, r)
  {
    if overlay.version.None? || (live.Some? && overlay.version.value <= live.value) then live else overlay.version
  }

  function StoredOverlay(store: Store, version: int): Overlay {
    if version in store.overlays then store.overlays[version] else EMPTY
  }

  // ----- any number of processes

  function Step(s: State, e: Event): Option<State> {
    if e.p !in s.processes then None else
    var process := s.processes[e.p];
    var stage := process.stage;
    match e
    case ReadLatest(p) =>
      if !stage.Idle? then None
      else if s.store.latest.None? then Some(Move(s, p, Loaded(EMPTY)))
      else Some(Move(s, p, SawLatest(s.store.latest.value)))
    case ReadOverlay(p) =>
      if !stage.SawLatest? then None
      else Some(Move(s, p, Loaded(StoredOverlay(s.store, stage.version))))
    case Patch(p) =>
      if stage.Loaded? then
        Some(s.(processes := s.processes[p := Process(Patched(stage.cached), PatchedVersion(process.live, stage.cached))]))
      else if stage.Saved? then
        Some(s.(processes := s.processes[p := Process(Idle, PatchedVersion(process.live, stage.remote))]))
      else None
    case Fetch(p, remote) =>
      if stage.Patched? then Some(Move(s, p, Fetched(stage.cached, remote))) else None
    case SaveOverlay(p) =>
      if !stage.Fetched? then None
      else if RemoteOverlayIsNewer(stage.cached, stage.remote) then
        var overlays := s.store.overlays[stage.remote.version.value := stage.remote];
        Some(Move(s.(store := s.store.(overlays := overlays)), p, HalfSaved(stage.remote)))
      else Some(Move(s, p, Saved(stage.remote)))
    case SaveLatest(p) =>
      if stage.HalfSaved? then
        Some(Move(s.(store := s.store.(latest := stage.remote.version)), p, Saved(stage.remote)))
      else None
    case Fail(p) => Some(Move(s, p, Idle))
    case Restart(p, configured) => Some(s.(processes := s.processes[p := Process(Idle, configured)]))
  }

  function Move(s: State, p: nat, stage: Stage): State
    requires p in s.processes
  {
    s.(processes := s.processes[p := s.processes[p].(stage := stage)])
  }

  function Run(s: State, events: seq<Event>): Option<State>
    decreases |events|
  {
    if events == [] then Some(s)
    else match Step(s, events[0])
      case None => None
      case Some(next) => Run(next, events[1..])
  }

  /** No round is under way. */
  predicate AllIdle(s: State) {
    forall p :: p in s.processes ==> s.processes[p].stage.Idle?
  }

  /** Every stored overlay has its version, and the latest version names a stored one. */
  ghost predicate Consistent(store: Store) {
    && (forall v :: v in store.overlays ==> store.overlays[v].version == Some(v))
    && (store.latest.Some? ==> store.latest.value in store.overlays)
  }

  lemma LatestNamesOverlay(store: Store)
    requires Consistent(store) && store.latest.Some?
    ensures StoredOverlay(store, store.latest.value).version == store.latest
  {
    var v := store.latest.value;
    assert v in store.overlays;
  }

  ghost predicate StageFits(store: Store, stage: Stage) {
    && (stage.SawLatest? ==> stage.version in store.overlays)
    && (stage.HalfSaved? ==> stage.remote.version.Some? && stage.remote.version.value in store.overlays)
  }

  ghost predicate Inv(s: State) {
    Consistent(s.store) && forall p :: p in s.processes ==> StageFits(s.store, s.processes[p].stage)
  }

  lemma StepKeeps(s: State, e: Event, t: State)
    requires Inv(s) && Step(s, e) == Some(t)
    ensures Inv(t) && s.store.overlays.Keys <= t.store.overlays.Keys && s.processes.Keys == t.processes.Keys
  {
    forall p | p in t.processes
      ensures StageFits(t.store, t.processes[p].stage)
    {
      assert StageFits(s.store, s.processes[p].stage);
    }
  }

  /** In every run of any number of processes, with failures and restarts anywhere, the latest version never
      names an overlay that is missing. */
  lemma {:induction false} LatestNeverDangles(s: State, events: seq<Event>, t: State)
    requires Consistent(s.store) && AllIdle(s) && Run(s, events) == Some(t)
    ensures Consistent(t.store)
  {
    RunKeeps(s, events, t);
  }

  lemma {:induction false} RunKeeps(s: State, events: seq<Event>, t: State)
    requires Inv(s) && Run(s, events) == Some(t)
    ensures Inv(t) && s.processes.Keys == t.processes.Keys
    decreases |events|
  {
    if events != [] {
      var next := Step(s, events[0]).value;
      StepKeeps(s, events[0], next);
      RunKeeps(next, events[1..], t);
    }
  }

  /** A process that is about to read an overlay finds it: the empty fallback is never used. */
  lemma OverlayIsFound(s: State, events: seq<Event>, t: State, p: nat)
    requires Consistent(s.store) && AllIdle(s) && Run(s, events) == Some(t)
    requires p in t.processes && t.processes[p].stage.SawLatest?
    ensures StoredOverlay(t.store, t.processes[p].stage.version).version == Some(t.processes[p].stage.version)
  {
    RunKeeps(s, events, t);
    assert StageFits(t.store, t.processes[p].stage);
  }

  /** The live version of a process that is not restarted never goes back, whatever the others do. */
  lemma {:induction false} LiveNeverGoesBack(s: State, events: seq<Event>, t: State, p: nat)
    requires Run(s, events) == Some(t) && p in s.processes
    requires forall e <- events :: !(e.Restart? && e.p == p)
    ensures p in t.processes && !Newer(s.processes[p].live, t.processes[p].live)
    decreases |events|
  {
    if events != [] {
      var next := Step(s, events[0]).value;
      assert events[0] in events;
      LiveNeverGoesBack(next, events[1..], t, p);
    }
  }

  // ----- rounds that do not overlap

  function Newer(a: Option<int>, b: Option<int>): bool {
    a.Some? && (b.None? || a.value > b.value)
  }

  /** What a round that runs alone knows about the latest version. */
  ghost predicate Informed(store: Store, stage: Stage) {
    match stage
    case Idle => true
    case SawLatest(v) => store.latest == Some(v)
    case Loaded(c) => store.latest == c.version
    case Patched(c) => store.latest == c.version
    case Fetched(c, _) => store.latest == c.version
    case HalfSaved(r) => Newer(r.version, store.latest)
    case Saved(r) => !Newer(r.version, store.latest)
  }

  /** At most one round is under way, and it knows the latest version. */
  ghost predicate Serial(s: State) {
    && Inv(s)
    && (forall p :: p in s.processes ==> Informed(s.store, s.processes[p].stage))
    && (forall p, q :: p in s.processes && q in s.processes && p != q ==>
          s.processes[p].stage.Idle? || s.processes[q].stage.Idle?)
  }

  /** A run in which a round only starts when no other one is under way. */
  predicate SerialRun(s: State, events: seq<Event>)
    decreases |events|
  {
    events == []
    || (Step(s, events[0]).Some? && (events[0].ReadLatest? ==> AllIdle(s)) && SerialRun(Step(s, events[0]).value, events[1..]))
  }

  lemma SerialStep(s: State, e: Event, t: State)
    requires Serial(s) && Step(s, e) == Some(t) && (e.ReadLatest? ==> AllIdle(s))
    ensures Serial(t) && !Newer(s.store.latest, t.store.latest)
  {
    StepKeeps(s, e, t);
    var stage := s.processes[e.p].stage;
    assert Informed(s.store, stage) && StageFits(s.store, stage);
    forall p | p in t.processes
      ensures Informed(t.store, t.processes[p].stage)
    {
      if p != e.p && !stage.Idle? {
        assert s.processes[p].stage.Idle?;
      }
    }
  }

  /** When rounds do not overlap, the stored version never goes back, with failures and restarts
      anywhere. With one process rounds never overlap. */
  lemma {:induction false} SerialRunKeepsLatest(s: State, events: seq<Event>, t: State)
    requires Serial(s) && SerialRun(s, events) && Run(s, events) == Some(t)
    ensures Serial(t) && !Newer(s.store.latest, t.store.latest)
    decreases |events|
  {
    if events != [] {
      var next := Step(s, events[0]).value;
      SerialStep(s, events[0], next);
      SerialRunKeepsLatest(next, events[1..], t);
    }
  }

  lemma StoredVersionNeverGoesBack(s: State, events: seq<Event>, t: State)
    requires Consistent(s.store) && AllIdle(s) && SerialRun(s, events) && Run(s, events) == Some(t)
    ensures !Newer(s.store.latest, t.store.latest)
  {
    SerialRunKeepsLatest(s, events, t);
  }

  /** A process runs one round at a time. */
  lemma {:induction false} OneProcessIsSerial(s: State, events: seq<Event>)
    requires |s.processes.Keys| <= 1 && Run(s, events).Some?
    ensures SerialRun(s, events)
    decreases |events|
  {
    if events != [] {
      var e := events[0];
      var next := Step(s, e).value;
      assert next.processes.Keys == s.processes.Keys;
      forall p | p in s.processes
        ensures p == e.p
      {
        AtMostOne(s.processes.Keys, e.p, p);
      }
      OneProcessIsSerial(next, events[1..]);
    }
  }

  lemma AtMostOne(ps: set<nat>, p: nat, q: nat)
    requires |ps| <= 1 && p in ps && q in ps
    ensures p == q
  {
    assert |ps - {p}| == |ps| - 1;
    assert ps - {p} == {};
  }

  // ----- rounds that overlap

  function Named(version: int): Overlay {
    Overlay(Some(version), "")
  }

  /** Process p has just fetched this version, and will store it. */
  predicate HasFetched(s: State, p: nat, version: int) {
    && p in s.processes && s.processes[p].stage.Fetched? && s.processes[p].stage.remote == Named(version)
    && RemoteOverlayIsNewer(s.processes[p].stage.cached, Named(version))
  }

  predicate Untroubled(events: seq<Event>) {
    forall e <- events :: !e.Fail? && !e.Restart?
  }

  lemma RunOne(s: State, e: Event, t: State)
    requires Step(s, e) == Some(t)
    ensures Run(s, [e]) == Some(t)
  {
    assert [e][1..] == [];
    assert Run(t, []) == Some(t);
  }

  lemma RunsOn(s: State, a: seq<Event>, m: State, e: Event, t: State)
    requires Run(s, a) == Some(m) && Step(m, e) == Some(t)
    ensures Run(s, a + [e]) == Some(t)
  {
    RunSplits(s, a, [e]);
    RunOne(m, e, t);
  }

  /** Only process p has moved. */
  predicate OthersStay(s: State, t: State, p: nat) {
    t.processes.Keys == s.processes.Keys && forall q :: q in s.processes && q != p ==> t.processes[q] == s.processes[q]
  }

  lemma LoadRuns(s: State, p: nat) returns (events: seq<Event>, t: State)
    requires Consistent(s.store) && p in s.processes && s.processes[p].stage.Idle?
    ensures Run(s, events) == Some(t) && Untroubled(events) && t.store == s.store && OthersStay(s, t, p)
    ensures p in t.processes && t.processes[p].stage.Loaded? && t.processes[p].stage.cached.version == s.store.latest
  {
    events := [ReadLatest(p)];
    t := Step(s, ReadLatest(p)).value;
    RunOne(s, ReadLatest(p), t);
    if s.store.latest.Some? {
      LatestNamesOverlay(s.store);
      var m := t;
      t := Step(m, ReadOverlay(p)).value;
      RunsOn(s, events, m, ReadOverlay(p), t);
      events := events + [ReadOverlay(p)];
    }
  }

  lemma FetchRuns(s: State, p: nat, version: int) returns (events: seq<Event>, t: State)
    requires Consistent(s.store) && p in s.processes && s.processes[p].stage.Idle? && Newer(Some(version), s.store.latest)
    ensures Run(s, events) == Some(t) && Untroubled(events) && t.store == s.store && OthersStay(s, t, p)
    ensures HasFetched(t, p, version)
  {
    var loaded;
    events, loaded := LoadRuns(s, p);
    var patched := Step(loaded, Patch(p)).value;
    t := Step(patched, Fetch(p, Named(version))).value;
    RunsOn(s, events, loaded, Patch(p), patched);
    RunsOn(s, events + [Patch(p)], patched, Fetch(p, Named(version)), t);
    events := events + [Patch(p)] + [Fetch(p, Named(version))];
  }

  lemma SaveRuns(s: State, p: nat, version: int) returns (events: seq<Event>, t: State)
    requires HasFetched(s, p, version)
    ensures Run(s, events) == Some(t) && Untroubled(events) && t.store.latest == Some(version) && OthersStay(s, t, p)
  {
    var m := Step(s, SaveOverlay(p)).value;
    t := Step(m, SaveLatest(p)).value;
    RunOne(s, SaveOverlay(p), m);
    RunsOn(s, [SaveOverlay(p)], m, SaveLatest(p), t);
    events := [SaveOverlay(p)] + [SaveLatest(p)];
  }

  lemma {:induction false} RunSplits(s: State, a: seq<Event>, b: seq<Event>)
    requires Run(s, a).Some?
    ensures Run(s, a + b) == Run(Run(s, a).value, b)
    decreases |a|
  {
    if a == [] {
      assert a + b == b;
    } else {
      assert (a + b)[0] == a[0] && (a + b)[1..] == a[1..] + b;
      RunSplits(Step(s, a[0]).value, a[1..], b);
    }
  }

  /** Two processes, any stored version, and a remote service whose version grows from `older` to
      `newer`. Without any failure, the stored version goes back from the newer one to the older one. */
  lemma OverlapLosesVersion(s: State, p: nat, q: nat, older: int, newer: int)
    returns (before: seq<Event>, m: State, after: seq<Event>, t: State)
    requires AllIdle(s) && Consistent(s.store) && p in s.processes && q in s.processes && p != q
    requires Newer(Some(older), s.store.latest) && older < newer
    ensures Run(s, before) == Some(m) && Run(m, after) == Some(t) && Untroubled(before + after)
    ensures m.store.latest == Some(newer) && t.store.latest == Some(older)
  {
    var e1, a := FetchRuns(s, p, older);
    var e2, b := FetchRuns(a, q, newer);
    var e3;
    e3, m := SaveRuns(b, q, newer);
    after, t := SaveRuns(m, p, older);
    RunSplits(s, e1, e2);
    RunSplits(s, e1 + e2, e3);
    before := e1 + e2 + e3;
  }

  /** In no run, from any of its states on, does the stored version go back. */
  ghost predicate LatestNeverGoesBack(s: State) {
    forall a, m, b, t :: Run(s, a) == Some(m) && Run(m, b) == Some(t) ==> !Newer(m.store.latest, t.store.latest)
  }

  /** The exact condition, for any stored overlays and any number of processes: the stored version
      never goes back if and only if at most one process polls. */
  lemma StoredVersionIsKeptExactly(s: State)
    requires AllIdle(s) && Consistent(s.store)
    ensures LatestNeverGoesBack(s) <==> |s.processes.Keys| <= 1
  {
    if |s.processes.Keys| <= 1 {
      forall a, m, b, t | Run(s, a) == Some(m) && Run(m, b) == Some(t)
        ensures !Newer(m.store.latest, t.store.latest)
      {
        OneProcessIsSerial(s, a);
        SerialRunKeepsLatest(s, a, m);
        RunKeeps(s, a, m);
        OneProcessIsSerial(m, b);
        SerialRunKeepsLatest(m, b, t);
      }
    } else {
      var p :| p in s.processes.Keys;
      assert |s.processes.Keys - {p}| > 0;
      var q :| q in s.processes.Keys - {p};
      var older := if s.store.latest.Some? then s.store.latest.value + 1 else 0;
      var before, m, after, t := OverlapLosesVersion(s, p, q, older, older + 1);
    }
  }

  // ----- one process, round by round

  function NewestOf(a: Option<int>, b: Option<int>): (r: Option<int>)
    ensures (r == a || r == b) && !Newer(a, r) && !Newer(b, r)
  {
    if Newer(b, a) then b else a
  }

  /** A write works, is lost, or takes effect although it is reported as failed. */
  datatype Write = Works | Lost | Unconfirmed

  /** Which calls of a round fail: the reads of the latest version and of its overlay, the credentials
      or location constraints of the stored and of the remote overlay, and the two writes. */
  datatype Faults = Faults(
    readLatest: bool,
    readOverlay: bool,
    patchStored: bool,
    writeOverlay: Write,
    writeLatest: Write,
    patchRemote: bool)

  /** The only process that polls, with the database it keeps overlays in. */
  class Poller {
    var latest: Option<int>
    var overlays: map<int, Overlay>
    var live: Option<int>

    ghost predicate Valid() reads this {
      Consistent(Store(latest, overlays))
    }

    method LoadCachedOverlay(faults: Faults) returns (r: Result<Overlay>)
      requires Valid()
      ensures r.Err? <==> faults.readLatest || (latest.Some? && faults.readOverlay)
      ensures r.Err? ==> r.error == "InternalError"
      ensures r.Ok? && latest.Some? ==> latest.value in overlays && r.value == overlays[latest.value]
      ensures r.Ok? && latest.None? ==> r.value == Overlay(None, "")
      ensures r.Ok? ==> r.value.version == latest
    {
      if faults.readLatest {
        return Err("InternalError");
      }
      if latest.None? {
        return Ok(EMPTY);
      }
      if faults.readOverlay {
        return Err("InternalError");
      }
      LatestNamesOverlay(Store(latest, overlays));
      return Ok(if latest.value in overlays then overlays[latest.value] else EMPTY);
    }

    /** An overlay that is not newer than the live one is no error, whatever it holds. */
    method PatchConfiguration(newConf: Overlay, fault: bool) returns (r: Result<()>)
      modifies this`live
      ensures r.Err? <==> fault && Newer(newConf.version, old(live))
      ensures r.Err? ==> r.error == "InternalError"
      ensures live == if r.Ok? then NewestOf(old(live), newConf.version) else old(live)
    {
      if newConf.version.None? || (live.Some? && newConf.version.value <= live.value) {
        return Ok(());
      }
      if fault {
        return Err("InternalError");
      }
      live := newConf.version;
      return Ok(());
    }

    /** The overlay is written before the latest version, so a failure in between leaves the old one
        in place. */
    method SaveConfigurationVersion(cached: Overlay, remote: Overlay, faults: Faults) returns (r: Result<()>)
      requires Valid() && cached.version == latest
      modifies this`latest, this`overlays
      ensures r.Err? ==> r.error == "InternalError"
      ensures r.Err? <==> Newer(remote.version, old(latest)) && !(faults.writeOverlay.Works? && faults.writeLatest.Works?)
      ensures Valid() && latest == if faults.writeOverlay.Works? && !faults.writeLatest.Lost?
                                   then NewestOf(old(latest), remote.version) else old(latest)
      ensures overlays == if Newer(remote.version, old(latest)) && !faults.writeOverlay.Lost?
                          then old(overlays)[remote.version.value := remote] else old(overlays)
    {
      if !RemoteOverlayIsNewer(cached, remote) {
        return Ok(());
      }
      if !faults.writeOverlay.Lost? {
        overlays := overlays[remote.version.value := remote];
      }
      if !faults.writeOverlay.Works? {
        return Err("InternalError");
      }
      if !faults.writeLatest.Lost? {
        latest := remote.version;
      }
      return if faults.writeLatest.Works? then Ok(()) else Err("InternalError");
    }

    /** One round. Whatever fails, nothing goes back. A round ends without an error exactly when no
        call that it makes fails; it then leaves the process at the newest of the versions live before,
        stored and remote, and stores the newest of the latter two. */
    method ApplyConfigurationOverlay(remote: Result<Overlay>, faults: Faults) returns (r: Result<()>)
      requires Valid()
      modifies this
      ensures Valid() && !Newer(old(live), live) && !Newer(old(latest), latest)
      ensures faults == Faults(false, false, false, Works, Works, false) && remote.Ok? ==> r.Ok?
      ensures r.Ok? ==>
        && remote.Ok? && !faults.readLatest
        && live == NewestOf(NewestOf(old(live), old(latest)), remote.value.version)
        && latest == NewestOf(old(latest), remote.value.version)
        && (Newer(remote.value.version, old(latest)) ==> overlays == old(overlays)[remote.value.version.value := remote.value])
    {
      var cached := LoadCachedOverlay(faults);
      if cached.Err? {
        return Err(cached.error);
      }
      r := PatchConfiguration(cached.value, faults.patchStored);
      if r.Err? {
        return;
      }
      if remote.Err? {
        return Err(remote.error);
      }
      r := SaveConfigurationVersion(cached.value, remote.value, faults);
      if r.Err? {
        return;
      }
      r := PatchConfiguration(remote.value, faults.patchRemote);
    }
  }
}
