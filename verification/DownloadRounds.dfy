// One gets without interruptions: whatever the task directory held, it ends with the file.
module DownloadRounds {
  import opened Wrappers
  import opened Limits
  import opened Tables
  import opened MetaIni
  import opened RangeSplit
  import opened SocketIo
  import opened PartDownload

  // The transfers of one round: each part that the task does not call finished, from k on,
  // over a connection that carries all of it.
  function FetchMissing(c: Client, k: nat, blob: Bytes): Client
    requires c.meta.Some? && MetaShaped(c.meta.value)
    decreases if c.meta.Some? then c.meta.value.partCount - k else 0
  {
    if k >= c.meta.value.partCount then c
    else
      var c' := if PartFinished(c.meta.value.parts[k]) then c else Next(c, Fetch(k, |blob|), blob);
      FetchMissing(c', k + 1, blob)
  }

  // Part i has all its bytes.
  predicate Whole(files: map<int, Bytes>, blob: Bytes, n: nat, i: nat)
    requires n > 0
  {
    PartLen(|blob|, n, i) == 0 || (i in files && |files[i]| == PartLen(|blob|, n, i))
  }

  // The task calls a part finished only if it is.
  ghost predicate Truthful(c: Client, blob: Bytes, n: nat)
    requires n > 0 && c.meta.Some? && MetaShaped(c.meta.value)
  {
    forall i :: 0 <= i < n && i < c.meta.value.partCount && PartFinished(c.meta.value.parts[i]) ==>
      Whole(c.disk.files, blob, n, i)
  }

  lemma FetchMakesWhole(c: Client, k: nat, hash: string, blob: Bytes, n: nat)
    requires ClientOk(c, hash, blob, n) && c.meta.Some? && k < n
    requires MetaShaped(c.meta.value) && c.meta.value.partCount == n && !PartFinished(c.meta.value.parts[k])
    ensures var c' := Next(c, Fetch(k, |blob|), blob);
            && ClientOk(c', hash, blob, n) && c'.meta == c.meta && Whole(c'.disk.files, blob, n, k)
            && forall i: nat :: i != k && Whole(c.disk.files, blob, n, i) ==> Whole(c'.disk.files, blob, n, i)
  {
    FetchKeepsClient(c, k, |blob|, hash, blob, n);
    hide ClientOk, Fetched, PartLen, PartStart;
  }

  lemma {:induction false} MissingAreFetched(c: Client, k: nat, hash: string, blob: Bytes, n: nat)
    requires ClientOk(c, hash, blob, n) && c.meta.Some? && MetaShaped(c.meta.value) && k <= n
    requires c.meta.value.partCount == n > 0 && Truthful(c, blob, n)
    requires forall i :: 0 <= i < k ==> Whole(c.disk.files, blob, n, i)
    ensures var c' := FetchMissing(c, k, blob);
            && ClientOk(c', hash, blob, n) && c'.meta == c.meta
            && forall i :: 0 <= i < n ==> Whole(c'.disk.files, blob, n, i)
    decreases n - k
  {
    hide ClientOk, Whole, Next;
    if k < n {
      if PartFinished(c.meta.value.parts[k]) {
        MissingAreFetched(c, k + 1, hash, blob, n);
      } else {
        FetchMakesWhole(c, k, hash, blob, n);
        MissingAreFetched(Next(c, Fetch(k, |blob|), blob), k + 1, hash, blob, n);
      }
    }
  }

  lemma StartIsTruthful(c: Client, plan: Plan, hash: string, blob: Bytes, n: nat)
    requires ClientOk(c, hash, blob, n) && CanFollow(c, plan, hash, blob, n)
    ensures var c' := Next(c, Start(plan), blob);
            && ClientOk(c', hash, blob, |plan.sources|) && c'.meta.Some? && MetaShaped(c'.meta.value)
            && c'.meta.value.partCount == |plan.sources| > 0 && Truthful(c', blob, |plan.sources|)
  {
    var m := |plan.sources|;
    var c' := Next(c, Start(plan), blob);
    NextKeepsClient(c, Start(plan), hash, blob, n);
    PlanFollows(c, plan, hash, blob, n);
    RangesAreShaped(c'.meta.value, hash, blob, m);
    SyncedIsTruthful(c', Prepare(c.disk, plan).value, hash, blob, m);
  }

  lemma SyncedIsTruthful(c: Client, m: TaskMeta, hash: string, blob: Bytes, n: nat)
    requires ClientOk(c, hash, blob, n) && c.meta.Some? && MetaShaped(c.meta.value) && c.meta.value.partCount == n > 0
    requires RangesOk(m, hash, blob, n) && c.meta.value == Synced(m, c.disk.files)
    ensures Truthful(c, blob, n)
  {
    hide PartStart, SavedOk, MetaFits, Slice;
    forall i | 0 <= i < n && PartFinished(c.meta.value.parts[i])
      ensures Whole(c.disk.files, blob, n, i)
    {
      SliceLength(blob, n, i);
    }
  }

  // From whatever is left of earlier rounds, one round without interruptions finishes every
  // part, merges to the file if there is a byte for every source, and clears the task away.
  lemma RoundCompletes(c: Client, plan: Plan, hash: string, blob: Bytes, n: nat)
    requires ClientOk(c, hash, blob, n) && CanFollow(c, plan, hash, blob, n)
    ensures var started := Next(c, Start(plan), blob);
            && started.meta.Some? && MetaShaped(started.meta.value)
            && var c' := FetchMissing(started, 0, blob);
               && c'.meta.Some? && MetaShaped(c'.meta.value) && c'.meta.value.partCount == |plan.sources|
               && AllFinished(Synced(c'.meta.value, c'.disk.files))
               && Merged(c'.disk.files, |plan.sources|) == (if |blob| >= |plan.sources| then Some(blob) else None)
               && (|blob| >= |plan.sources| ==>
                     var done := Next(c', Finish(true, |plan.sources|), blob);
                     done.meta == None && done.disk.ini == None
                     && forall i :: 0 <= i < |plan.sources| ==> i !in done.disk.files)
  {
    hide ClientOk, CanFollow, Whole, Truthful, Merged, Next, Synced, AllFinished;
    var m := |plan.sources|;
    var started := Next(c, Start(plan), blob);
    StartIsTruthful(c, plan, hash, blob, n);
    MissingAreFetched(started, 0, hash, blob, m);
    var c' := FetchMissing(started, 0, blob);
    WholeIsFinished(c', hash, blob, m);
    FinishedMergesIff(c', hash, blob, m);
    if |blob| >= m {
      FinishClearsUp(c', blob);
    }
  }

  lemma FinishClearsUp(c: Client, blob: Bytes)
    requires c.meta.Some? && MetaShaped(c.meta.value) && AllFinished(Synced(c.meta.value, c.disk.files))
    requires Merged(c.disk.files, c.meta.value.partCount).Some?
    ensures var done := Next(c, Finish(true, c.meta.value.partCount), blob);
            && done.meta == None && done.disk.ini == None
            && forall i :: 0 <= i < c.meta.value.partCount ==> i !in done.disk.files
  {
    hide Synced, AllFinished, Merged;
  }

  lemma WholeIsFinished(c: Client, hash: string, blob: Bytes, n: nat)
    requires ClientOk(c, hash, blob, n) && c.meta.Some? && MetaShaped(c.meta.value) && c.meta.value.partCount == n > 0
    requires forall i :: 0 <= i < n ==> Whole(c.disk.files, blob, n, i)
    ensures AllFinished(Synced(c.meta.value, c.disk.files))
  {
    hide PartStart, SavedOk, MetaFits, FilesOk;
    var m := Synced(c.meta.value, c.disk.files);
    forall i | 0 <= i < n
      ensures PartFinished(m.parts[i])
    {
      assert Whole(c.disk.files, blob, n, i) && PartSize(c.meta.value.parts[i]) == PartLen(|blob|, n, i);
    }
  }
}
