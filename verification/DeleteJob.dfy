/** The pool of workers of a multi-object delete: a bounded number at work, each taking one entry
    through its steps, and data that is deleted at the end in chunks. The answers of the services
    that a worker calls are given; the order of their arrival is not. */
module DeleteJob {
  import opened Wrappers
  import opened Locations
  import opened DeleteEntry

  /** How far the worker of an entry has come: not started, waiting for the answer to its read, to
      its policy check or to its last call, or ended. */
  datatype Stage = Waiting | Reading | Checking | Acting | Ended

  /** The sum of the first k tallies, as far as the workers have ended. */
  function SumEnded(tallies: seq<Tally>, stages: seq<Stage>, k: nat): Tally
    requires k <= |tallies| == |stages|
  {
    if k == 0 then NOTHING
    else if stages[k - 1] == Ended then Add(SumEnded(tallies, stages, k - 1), tallies[k - 1])
    else SumEnded(tallies, stages, k - 1)
  }

  lemma {:induction false} SumOfAll(tallies: seq<Tally>, stages: seq<Stage>, k: nat)
    requires k <= |tallies| == |stages| && forall i :: 0 <= i < k ==> stages[i] == Ended
    ensures SumEnded(tallies, stages, k) == Sum(tallies[..k])
  {
    if k > 0 {
      SumOfAll(tallies, stages, k - 1);
      assert tallies[..k][..k - 1] == tallies[..k - 1];
    }
  }

  lemma {:induction false} SumOfNone(tallies: seq<Tally>, stages: seq<Stage>, k: nat)
    requires k <= |tallies| == |stages| && forall i :: 0 <= i < k ==> stages[i] != Ended
    ensures SumEnded(tallies, stages, k) == NOTHING
  {
    if k > 0 {
      SumOfNone(tallies, stages, k - 1);
    }
  }

  lemma AddSwaps(x: Tally, a: Tally, b: Tally)
    ensures Add(Add(x, a), b) == Add(Add(x, b), a)
  {
    assert x.errors + a.errors + b.errors == x.errors + b.errors + a.errors;
    assert x.deleted + a.deleted + b.deleted == x.deleted + b.deleted + a.deleted;
    assert x.answered + a.answered + b.answered == x.answered + b.answered + a.answered;
    assert x.data + a.data + b.data == x.data + b.data + a.data;
  }

  lemma {:induction false} OneMoreEnded(tallies: seq<Tally>, stages: seq<Stage>, j: nat, k: nat)
    requires k <= |tallies| == |stages| && j < |stages| && stages[j] != Ended
    ensures SumEnded(tallies, stages[j := Ended], k)
            == if j < k then Add(SumEnded(tallies, stages, k), tallies[j]) else SumEnded(tallies, stages, k)
  {
    if k > 0 {
      OneMoreEnded(tallies, stages, j, k - 1);
      if j < k - 1 && stages[k - 1] == Ended {
        AddSwaps(SumEnded(tallies, stages, k - 1), tallies[j], tallies[k - 1]);
      }
    }
  }

  lemma {:induction false} SameEnded(tallies: seq<Tally>, stages: seq<Stage>, j: nat, stage: Stage, k: nat)
    requires k <= |tallies| == |stages| && j < |stages| && stages[j] != Ended && stage != Ended
    ensures SumEnded(tallies, stages[j := stage], k) == SumEnded(tallies, stages, k)
  {
    if k > 0 {
      SameEnded(tallies, stages, j, stage, k - 1);
    }
  }

  // ----- the pool of workers

  function BytesOf(outcome: Outcome): int {
    if outcome.Removed? then outcome.md.contentLength else 0
  }

  /** The results after one more error, one more deletion, and more data to delete. */
  function WithError(t: Tally, entry: Entry, error: string): Tally {
    t.(errors := t.errors + multiset{ErrorResult(entry, error)}, answered := t.answered + multiset{entry})
  }

  function WithDeleted(t: Tally, result: DeletedResult): Tally {
    t.(deleted := t.deleted + multiset{result}, answered := t.answered + multiset{result.entry})
  }

  function WithCounts(t: Tally, outcome: Outcome): Tally {
    t.(removed := t.removed + CountOf(outcome), bytes := t.bytes + BytesOf(outcome))
  }

  function WithData(t: Tally, locations: seq<Location>): Tally {
    t.(data := t.data + multiset(locations))
  }

  lemma ErrorAdds(t: Tally, env: Env, entry: Entry, outcome: Outcome)
    requires outcome.Failed?
    ensures WithError(WithData(t, outcome.data), entry, outcome.error) == Add(t, TallyOf(env, entry, outcome))
  {
  }

  lemma DeletedAdds(t: Tally, env: Env, entry: Entry, outcome: Outcome)
    requires !outcome.Failed? && !outcome.Crashed?
    ensures WithDeleted(WithCounts(WithData(t, DataWanted(outcome)), outcome), Report(env, entry, outcome))
            == Add(t, TallyOf(env, entry, outcome))
  {
    assert Report(env, entry, outcome).entry == entry;
  }

  function EntriesOfErrors(results: seq<ErrorResult>): seq<Entry> {
    seq(|results|, i requires 0 <= i < |results| => results[i].entry)
  }

  function EntriesOfDeleted(results: seq<DeletedResult>): seq<Entry> {
    seq(|results|, i requires 0 <= i < |results| => results[i].entry)
  }

  function Concat(chunks: seq<seq<Location>>): seq<Location> {
    if chunks == [] then [] else Concat(chunks[..|chunks| - 1]) + chunks[|chunks| - 1]
  }

  lemma ConcatNext(chunks: seq<seq<Location>>, i: nat)
    requires i < |chunks|
    ensures multiset(Concat(chunks[..i + 1])) == multiset(Concat(chunks[..i])) + multiset(chunks[i])
  {
    assert chunks[..i + 1][..i] == chunks[..i];
  }

  /** The list is spliced into chunks. They are the list again, in its order; all are full but the
      last, and none is empty. */
  method SplitIntoChunks(list: seq<Location>, size: nat) returns (chunks: seq<seq<Location>>)
    requires size > 0
    ensures Concat(chunks) == list
    ensures forall c <- chunks :: 0 < |c| <= size
    ensures forall i :: 0 <= i < |chunks| - 1 ==> |chunks[i]| == size
  {
    var rest := list;
    chunks := [];
    while |rest| > 0
      invariant Concat(chunks) + rest == list
      invariant forall c <- chunks :: 0 < |c| <= size
      invariant forall i :: 0 <= i < |chunks| ==> |chunks[i]| == size || rest == []
      invariant forall i :: 0 <= i < |chunks| - 1 ==> |chunks[i]| == size
    {
      var n := if |rest| < size then |rest| else size;
      var chunk := rest[..n];
      rest := rest[n..];
      assert (chunks + [chunk])[..|chunks|] == chunks;
      chunks := chunks + [chunk];
    }
  }

  class Job {
    const env: Env
    const entries: seq<Entry>
    const answers: seq<Answers>
    var errorResults: seq<ErrorResult>
    var successfullyDeleted: seq<DeletedResult>
    var totalContentLengthDeleted: int
    var numOfObjectsRemoved: int
    var deleteFromStorage: seq<Location>
    /** Everything that the data backend has been asked to delete. */
    ghost var requested: multiset<Location>
    /** What the fields above add up to. */
    ghost var results: Tally
    /** The largest number of workers that were at work at the same time. */
    ghost var peak: nat

    ghost predicate Valid() reads this {
      && results.errors == multiset(errorResults)
      && results.deleted == multiset(successfullyDeleted)
      && results.answered == multiset(EntriesOfErrors(errorResults)) + multiset(EntriesOfDeleted(successfullyDeleted))
      && results.removed == numOfObjectsRemoved && results.bytes == totalContentLengthDeleted
      && results.data == requested + multiset(deleteFromStorage)
    }

    /** The entries that are still in play, after some may have been refused. */
    constructor (env: Env, entries: seq<Entry>, answers: seq<Answers>, refused: seq<ErrorResult>)
      ensures this.env == env && this.entries == entries && this.answers == answers
      ensures errorResults == refused && successfullyDeleted == [] && deleteFromStorage == []
      ensures totalContentLengthDeleted == 0 && numOfObjectsRemoved == 0 && requested == multiset{} && peak == 0
      ensures Valid()
    {
      this.env, this.entries, this.answers := env, entries, answers;
      errorResults, successfullyDeleted, deleteFromStorage := refused, [], [];
      totalContentLengthDeleted, numOfObjectsRemoved, requested, peak := 0, 0, multiset{}, 0;
      results := Tally(multiset(refused), multiset{}, multiset(EntriesOfErrors(refused)), 0, 0, multiset{});
    }

    method PushError(entry: Entry, error: string)
      requires Valid()
      modifies this`errorResults, this`results
      ensures Valid() && results == WithError(old(results), entry, error)
    {
      ghost var before := EntriesOfErrors(errorResults);
      errorResults := errorResults + [ErrorResult(entry, error)];
      assert EntriesOfErrors(errorResults) == before + [entry];
      results := WithError(results, entry, error);
    }

    method PushDeleted(result: DeletedResult)
      requires Valid()
      modifies this`successfullyDeleted, this`results
      ensures Valid() && results == WithDeleted(old(results), result)
    {
      ghost var before := EntriesOfDeleted(successfullyDeleted);
      successfullyDeleted := successfullyDeleted + [result];
      assert EntriesOfDeleted(successfullyDeleted) == before + [result.entry];
      results := WithDeleted(results, result);
    }

    method AddCounts(removed: int, bytes: int)
      requires Valid()
      modifies this`totalContentLengthDeleted, this`numOfObjectsRemoved, this`results
      ensures Valid() && results == old(results).(removed := old(results.removed) + removed, bytes := old(results.bytes) + bytes)
    {
      numOfObjectsRemoved := numOfObjectsRemoved + removed;
      totalContentLengthDeleted := totalContentLengthDeleted + bytes;
      results := results.(removed := results.removed + removed, bytes := results.bytes + bytes);
    }

    method Count(outcome: Outcome)
      requires Valid() && !outcome.Failed? && !outcome.Crashed?
      modifies this`totalContentLengthDeleted, this`numOfObjectsRemoved, this`results
      ensures Valid() && results == WithCounts(old(results), outcome)
    {
      if outcome.Removed? && outcome.md.contentLength > 0 {
        AddCounts(1, outcome.md.contentLength);
      } else if outcome.Marked? {
        AddCounts(-1, 0);
      }
    }

    /** The data goes at once, or is kept for the end. */
    method DeleteData(locations: seq<Location>)
      requires Valid()
      modifies this`deleteFromStorage, this`requested, this`results
      ensures Valid() && results == WithData(old(results), locations)
    {
      if env.deferred {
        deleteFromStorage := deleteFromStorage + locations;
      } else {
        requested := requested + multiset(locations);
      }
      results := WithData(results, locations);
    }

    method EndFailed(entry: Entry, outcome: Outcome)
      requires Valid() && outcome.Failed?
      modifies this
      ensures Valid() && results == Add(old(results), TallyOf(env, entry, outcome)) && peak == old(peak)
    {
      ErrorAdds(results, env, entry, outcome);
      DeleteData(DataWanted(outcome));
      PushError(entry, outcome.error);
    }

    method EndDeleted(entry: Entry, outcome: Outcome)
      requires Valid() && !outcome.Failed? && !outcome.Crashed?
      modifies this
      ensures Valid() && results == Add(old(results), TallyOf(env, entry, outcome)) && peak == old(peak)
    {
      DeletedAdds(results, env, entry, outcome);
      DeleteData(DataWanted(outcome));
      Count(outcome);
      PushDeleted(Report(env, entry, outcome));
    }

    /** A worker ends: its data goes, the counters change, and the entry is reported. */
    method End(entry: Entry, outcome: Outcome)
      requires Valid() && !outcome.Crashed?
      modifies this
      ensures Valid() && results == Add(old(results), TallyOf(env, entry, outcome)) && peak == old(peak)
    {
      if outcome.Failed? {
        EndFailed(entry, outcome);
      } else {
        EndDeleted(entry, outcome);
      }
    }

    /** The results are those of the workers that have ended; none of those lacks its delete marker. */
    ghost predicate Counted(before: Tally, tallies: seq<Tally>, stages: seq<Stage>)
      reads this
      requires |entries| == |answers| == |tallies| == |stages|
    {
      && Valid() && results == Add(before, SumEnded(tallies, stages, |tallies|))
      && forall j: nat :: j < |stages| && stages[j] == Ended ==> !MarkerFailsAt(env, entries, answers, j)
    }

    /** Worker j ends, at whatever step it is. */
    method EndWorker(j: nat, outcome: Outcome, ghost before: Tally, ghost tallies: seq<Tally>, ghost stages: seq<Stage>)
      requires j < |entries| == |answers| == |stages| && stages[j] != Ended
      requires tallies == EntryTallies(env, entries, answers)
      requires Counted(before, tallies, stages) && outcome == Handle(env, entries[j], answers[j]) && !outcome.Crashed?
      modifies this
      ensures Counted(before, tallies, stages[j := Ended]) && peak == old(peak)
    {
      End(entries[j], outcome);
      OneMoreEnded(tallies, stages, j, |tallies|);
      AddAssociates(before, SumEnded(tallies, stages, |tallies|), tallies[j]);
      CrashesExactly(env, entries[j], answers[j]);
    }

    /** Worker j has no result yet: it ends with one, or waits for its next answer. */
    method GoOn(j: nat, next: Next, ghost before: Tally, ghost tallies: seq<Tally>, stages: seq<Stage>)
      returns (after: seq<Stage>)
      requires j < |entries| == |answers| == |stages| && stages[j] != Ended
      requires tallies == EntryTallies(env, entries, answers) && Counted(before, tallies, stages)
      requires next.Finish? ==> next.outcome == Handle(env, entries[j], answers[j]) && !next.outcome.Crashed?
      modifies this
      ensures after == stages[j := StageOf(next)] && Counted(before, tallies, after) && peak == old(peak)
    {
      after := stages[j := StageOf(next)];
      if next.Finish? {
        EndWorker(j, next.outcome, before, tallies, stages);
      } else {
        SameEnded(tallies, stages, j, StageOf(next), |tallies|);
      }
    }

    /** Worker j gets the answer it waits for. When a delete marker was not stored, the callback
        throws, and the request is never answered. */
    method Answer(j: nat, ghost before: Tally, ghost tallies: seq<Tally>, stages: seq<Stage>)
      returns (after: seq<Stage>, crashed: bool)
      requires j < |entries| == |answers| == |stages| && IsBusy(stages[j])
      requires tallies == EntryTallies(env, entries, answers) && Counted(before, tallies, stages)
      requires Fits(env, entries[j], answers[j], stages[j])
      modifies this
      ensures crashed ==> MarkerFailsAt(env, entries, answers, j)
      ensures !crashed ==> |after| == |stages| && after == stages[j := after[j]] && Counted(before, tallies, after)
      ensures !crashed ==> Rank(after[j]) < Rank(stages[j]) && Fits(env, entries[j], answers[j], after[j])
      ensures peak == old(peak)
    {
      crashed := false;
      var next := NextOf(env, entries[j], answers[j], stages[j]);
      NextFits(env, entries[j], answers[j], stages[j]);
      if next.Finish? && next.outcome.Crashed? {
        return stages, true;
      }
      after := GoOn(j, next, before, tallies, stages);
    }

    /** The pool at any time: at most as many workers at work as the limit says. */
    ghost predicate Working(before: Tally, tallies: seq<Tally>, stages: seq<Stage>, started: nat)
      reads this
    {
      && Staged(stages, started) && AllFit(env, entries, answers, stages)
      && tallies == EntryTallies(env, entries, answers) && Counted(before, tallies, stages)
      && Busy(stages) <= env.concurrency && peak <= env.concurrency
    }

    method StartOne(ghost before: Tally, ghost tallies: seq<Tally>, stages: seq<Stage>, started: nat)
      returns (after: seq<Stage>)
      requires Working(before, tallies, stages, started) && started < |stages| && Busy(stages) < env.concurrency
      modifies this`peak
      ensures Working(before, tallies, after, started + 1) && Ranks(after) < Ranks(stages) && |after| == |stages|
    {
      SetStage(stages, started, Reading);
      SameEnded(tallies, stages, started, Reading, |tallies|);
      after := stages[started := Reading];
      peak := if Busy(after) > peak then Busy(after) else peak;
    }

    method AnswerOne(ghost before: Tally, ghost tallies: seq<Tally>, stages: seq<Stage>, started: nat)
      returns (after: seq<Stage>, crashed: bool)
      requires Working(before, tallies, stages, started) && Busy(stages) > 0
      modifies this
      ensures crashed ==> !EveryMarkerIsStored(env, entries, answers)
      ensures !crashed ==> Working(before, tallies, after, started) && Ranks(after) < Ranks(stages) && |after| == |stages|
      ensures peak <= env.concurrency
    {
      SomebodyWorks(stages);
      var j: nat :| j < |stages| && IsBusy(stages[j]);
      after, crashed := Answer(j, before, tallies, stages);
      if !crashed {
        SetStage(stages, j, after[j]);
      }
    }

    /** The pool of workers. Which running worker gets its answer next, and whether another one is
        started first, is left open. */
    method ForEachLimit() returns (crashed: bool)
      requires Valid() && |entries| == |answers| && env.concurrency > 0 && peak == 0
      modifies this
      ensures crashed <==> !EveryMarkerIsStored(env, entries, answers)
      ensures !crashed ==> Valid() && results == Add(old(results), Sum(EntryTallies(env, entries, answers)))
      ensures peak <= env.concurrency
    {
      ghost var before, tallies := results, EntryTallies(env, entries, answers);
      var started: nat := 0;
      var stages := seq(|entries|, _ => Waiting);
      NobodyStarted(tallies, stages);
      while started < |entries| || Busy(stages) > 0
        invariant |stages| == |entries| && Working(before, tallies, stages, started)
        decreases Ranks(stages)
      {
        var startFirst: bool := *;
        if started < |entries| && Busy(stages) < env.concurrency && (startFirst || Busy(stages) == 0) {
          stages := StartOne(before, tallies, stages, started);
          started := started + 1;
        } else {
          stages, crashed := AnswerOne(before, tallies, stages, started);
          if crashed {
            return;
          }
        }
      }
      AllCounted(before, tallies, stages);
      crashed := false;
    }

    /** All chunks are asked to be deleted at once. One that cannot be deleted stops no other; it is logged. */
    method DeleteAll(chunks: seq<seq<Location>>, chunkFails: nat -> bool) returns (logged: bool)
      modifies this`requested
      ensures requested == old(requested) + multiset(Concat(chunks))
      ensures logged <==> exists i: nat :: i < |chunks| && chunkFails(i)
    {
      for i := 0 to |chunks|
        invariant requested == old(requested) + multiset(Concat(chunks[..i]))
      {
        ConcatNext(chunks, i);
        requested := requested + multiset(chunks[i]);
      }
      assert chunks[..|chunks|] == chunks;
      logged := exists i: nat :: i < |chunks| && chunkFails(i);
    }

    /** The data that was kept for the end goes in chunks. The request goes on as if all of it had
        been deleted. */
    method DeleteChunks(chunkFails: nat -> bool) returns (chunks: seq<seq<Location>>, logged: bool)
      requires env.concurrency > 0
      modifies this`deleteFromStorage, this`requested
      ensures Concat(chunks) == old(deleteFromStorage) && forall c <- chunks :: 0 < |c| <= env.concurrency
      ensures logged <==> exists i: nat :: i < |chunks| && chunkFails(i)
      ensures deleteFromStorage == [] && requested == old(requested) + multiset(old(deleteFromStorage))
    {
      chunks := SplitIntoChunks(deleteFromStorage, env.concurrency);
      logged := DeleteAll(chunks, chunkFails);
      deleteFromStorage := [];
    }

    /** The whole step: the pool of workers, and then the data that is left to delete. */
    method GetObjMetadataAndDelete(chunkFails: nat -> bool) returns (crashed: bool)
      requires Valid() && |entries| == |answers| && env.concurrency > 0 && peak == 0
      modifies this
      ensures crashed <==> !EveryMarkerIsStored(env, entries, answers)
      ensures !crashed ==>
        && Valid() && results == Add(old(results), Sum(EntryTallies(env, entries, answers)))
        && deleteFromStorage == [] && requested == results.data
      ensures peak <= env.concurrency
    {
      crashed := ForEachLimit();
      if !crashed {
        var chunks, logged := DeleteChunks(chunkFails);
      }
    }

    lemma NobodyStarted(tallies: seq<Tally>, stages: seq<Stage>)
      requires Valid() && |entries| == |answers| == |stages| && peak == 0
      requires tallies == EntryTallies(env, entries, answers) && forall i :: 0 <= i < |stages| ==> stages[i] == Waiting
      ensures Working(results, tallies, stages, 0)
    {
      NobodyWorks(stages);
      SumOfNone(tallies, stages, |tallies|);
      AddNothing(results);
    }

    lemma AllCounted(before: Tally, tallies: seq<Tally>, stages: seq<Stage>)
      requires Working(before, tallies, stages, |stages|) && Busy(stages) == 0
      ensures EveryMarkerIsStored(env, entries, answers) && results == Add(before, Sum(tallies))
    {
      EverybodyEnded(stages);
      SumOfAll(tallies, stages, |tallies|);
      assert tallies[..|tallies|] == tallies;
    }
  }

  function StageOf(next: Next): Stage {
    match next
    case Finish(_) => Ended
    case AskPolicy => Checking
    case Act => Acting
  }

  predicate IsBusy(stage: Stage) {
    stage == Reading || stage == Checking || stage == Acting
  }

  function Rank(stage: Stage): nat {
    match stage
    case Waiting => 4
    case Reading => 3
    case Checking => 2
    case Acting => 1
    case Ended => 0
  }

  function Ranks(stages: seq<Stage>): nat {
    if stages == [] then 0 else Rank(stages[0]) + Ranks(stages[1..])
  }

  /** The number of workers at work. */
  function Busy(stages: seq<Stage>): nat {
    if stages == [] then 0 else (if IsBusy(stages[0]) then 1 else 0) + Busy(stages[1..])
  }

  lemma {:induction false} SetStage(stages: seq<Stage>, j: nat, stage: Stage)
    requires j < |stages|
    ensures Ranks(stages[j := stage]) + Rank(stages[j]) == Ranks(stages) + Rank(stage)
    ensures Busy(stages[j := stage]) + (if IsBusy(stages[j]) then 1 else 0)
            == Busy(stages) + if IsBusy(stage) then 1 else 0
  {
    var after := stages[j := stage];
    if j == 0 {
      assert after[1..] == stages[1..];
    } else {
      SetStage(stages[1..], j - 1, stage);
      assert after[1..] == stages[1..][j - 1 := stage];
    }
  }

  lemma {:induction false} NobodyWorks(stages: seq<Stage>)
    requires forall i :: 0 <= i < |stages| ==> !IsBusy(stages[i])
    ensures Busy(stages) == 0
  {
    if stages != [] {
      NobodyWorks(stages[1..]);
    }
  }

  lemma {:induction false} SomebodyWorks(stages: seq<Stage>)
    requires Busy(stages) > 0
    ensures exists j: nat :: j < |stages| && IsBusy(stages[j])
  {
    if !IsBusy(stages[0]) {
      SomebodyWorks(stages[1..]);
      var j: nat :| j < |stages[1..]| && IsBusy(stages[1..][j]);
      assert IsBusy(stages[j + 1]);
    } else {
      assert IsBusy(stages[0]);
    }
  }

  /** Workers are started in the order of the entries. */
  predicate Staged(stages: seq<Stage>, started: nat) {
    started <= |stages| && forall i :: 0 <= i < |stages| ==> (stages[i] == Waiting <==> i >= started)
  }

  lemma {:induction false} EverybodyEnded(stages: seq<Stage>)
    requires Staged(stages, |stages|) && Busy(stages) == 0
    ensures forall i :: 0 <= i < |stages| ==> stages[i] == Ended
  {
    if stages != [] {
      assert stages[0] == Ended;
      EverybodyEnded(stages[1..]);
      assert forall i :: 0 < i < |stages| ==> stages[i] == stages[1..][i - 1];
    }
  }

  /** What a worker has been answered so far has led it to this stage. */
  predicate Fits(env: Env, entry: Entry, a: Answers, stage: Stage) {
    && (stage == Checking ==> AfterRead(env, entry, a.read) == AskPolicy)
    && (stage == Acting ==> Acts(env, entry, a))
  }

  /** What the answer that it waits for leads the worker to. */
  function NextOf(env: Env, entry: Entry, a: Answers, stage: Stage): Next
    requires IsBusy(stage) && Fits(env, entry, a, stage)
  {
    if stage == Reading then AfterRead(env, entry, a.read)
    else if stage == Checking then AfterPolicy(a.read.value.value.lock, a.bypass)
    else Finish(AfterAct(env, entry, a))
  }

  lemma NextFits(env: Env, entry: Entry, a: Answers, stage: Stage)
    requires IsBusy(stage) && Fits(env, entry, a, stage)
    ensures var next := NextOf(env, entry, a, stage);
            && Rank(StageOf(next)) < Rank(stage) && Fits(env, entry, a, StageOf(next))
            && (next.Finish? ==> next.outcome == Handle(env, entry, a))
            && (next.Finish? && next.outcome.Crashed? ==> MarkerFails(env, entry, a))
  {
    CrashesExactly(env, entry, a);
  }

  ghost predicate AllFit(env: Env, entries: seq<Entry>, answers: seq<Answers>, stages: seq<Stage>) {
    |entries| == |answers| == |stages| && forall j :: 0 <= j < |stages| ==> Fits(env, entries[j], answers[j], stages[j])
  }

  lemma AddNothing(t: Tally)
    ensures Add(t, NOTHING) == t
  {
  }

  lemma AddAssociates(a: Tally, b: Tally, c: Tally)
    ensures Add(Add(a, b), c) == Add(a, Add(b, c))
  {
    assert a.errors + b.errors + c.errors == a.errors + (b.errors + c.errors);
    assert a.deleted + b.deleted + c.deleted == a.deleted + (b.deleted + c.deleted);
    assert a.answered + b.answered + c.answered == a.answered + (b.answered + c.answered);
    assert a.data + b.data + c.data == a.data + (b.data + c.data);
  }
}
