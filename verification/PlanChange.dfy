// Part files survive a change of plan: when that is harmless, and what happens when it is not.
module PlanChange {
  import opened Wrappers
  import opened Limits
  import opened Tables
  import opened MetaIni
  import opened RangeSplit
  import opened SocketIo
  import opened PartDownload

  // Whatever the content, and however far the parts have come: what fits a split into n parts
  // fits one into m if, and only if, the numbers say so.
  lemma TakeOverIsSafeIff(size: nat, n: nat, m: nat)
    requires n > 0 && m > 0
    ensures CanTakeOver(size, n, m) <==>
            forall blob: Bytes, files :: |blob| == size && FilesOk(files, blob, n) ==> FilesOk(files, blob, m)
    ensures n == m ==> CanTakeOver(size, n, m)
  {
    forall blob: Bytes, files | CanTakeOver(size, n, m) && |blob| == size && FilesOk(files, blob, n)
      ensures FilesOk(files, blob, m)
    {
      TakenOver(files, blob, n, m);
    }
    if !CanTakeOver(size, n, m) {
      var i :| 0 <= i < Min(n, m) && PartLen(size, n, i) > 0
               && (PartStart(size, n, i) != PartStart(size, m, i) || PartLen(size, n, i) > PartLen(size, m, i));
      MisplacedPart(size, n, m, i);
    }
  }

  // A plan with as many sources as the task on disk can always follow it, from any addresses.
  lemma SameCountFollows(c: Client, plan: Plan, hash: string, blob: Bytes, n: nat)
    requires PlanFor(plan, hash, blob, n)
    ensures CanFollow(c, plan, hash, blob, n)
  {
    hide PartStart, PartLen;
  }

  lemma MisplacedPart(size: nat, n: nat, m: nat, i: nat)
    requires i < n && i < m && PartLen(size, n, i) > 0
    requires PartStart(size, n, i) != PartStart(size, m, i) || PartLen(size, n, i) > PartLen(size, m, i)
    ensures exists blob: Bytes, files :: |blob| == size && FilesOk(files, blob, n) && !FilesOk(files, blob, m)
  {
    PartInFile(size, n, i);
    PartInFile(size, m, i);
    PartHasBytesIff(size, n, i);
    var at := PartStart(size, n, i);
    var blob: Bytes := seq(size, j => if j == at then 1 else 0);
    var had := Slice(blob, n, i);
    assert |blob| == size && had[0] == 1;
    assert !(had <= Slice(blob, m, i));
    var files := map[i := had];
    assert FilesOk(files, blob, n) && !FilesOk(files, blob, m);
  }

  // ---------------------------------------------------------------- a spoiled part

  // Part i has at least the length of its range, but not its bytes.
  ghost predicate SpoiledPart(files: map<int, Bytes>, blob: Bytes, n: nat, i: nat)
  {
    i < n && i in files && |files[i]| >= PartLen(|blob|, n, i) && files[i] != Slice(blob, n, i)
  }

  // The client does not see it: to it the part is finished.
  ghost predicate Spoiled(c: Client, hash: string, blob: Bytes, n: nat, i: nat)
  {
    && SpoiledPart(c.disk.files, blob, n, i)
    && (exists n0 :: SavedOk(c.disk.ini, hash, blob, n0))
    && (c.meta.Some? ==> RangesOk(c.meta.value, hash, blob, n) && PartFinished(c.meta.value.parts[i]))
  }

  // Plans with n sources from now on, and a hash check that nothing but the file passes.
  predicate SamePlan(c: Client, e: Event, hash: string, blob: Bytes, n: nat)
  {
    match e
    case Start(plan) => PlanFor(plan, hash, blob, n)
    case StartCut(plan, _) => PlanFor(plan, hash, blob, n)
    case Fetch(_, _) => Possible(c, e, hash, blob, n)
    case Finish(hashOk, _) => hashOk ==> Merged(c.disk.files, n) == Some(blob)
    case _ => true
  }

  predicate SamePlanRun(c: Client, es: seq<Event>, hash: string, blob: Bytes, n: nat)
    decreases |es|
  {
    es == [] || (SamePlan(c, es[0], hash, blob, n) && SamePlanRun(Next(c, es[0], blob), es[1..], hash, blob, n))
  }

  // Finished parts are no shorter than their ranges, so a merge is the file only if every
  // part is right.
  lemma {:induction false} MergeOfLongParts(files: map<int, Bytes>, blob: Bytes, n: nat, k: nat)
    requires 0 < n && k <= n && Merged(files, k).Some?
    requires forall j :: 0 <= j < k ==> j in files && |files[j]| >= PartLen(|blob|, n, j)
    ensures PartStart(|blob|, n, k) <= |blob| && |Merged(files, k).value| >= PartStart(|blob|, n, k)
    ensures Merged(files, k).value == blob[..PartStart(|blob|, n, k)] ==>
              forall j :: 0 <= j < k ==> files[j] == Slice(blob, n, j)
  {
    hide PartLen, PartStart;
    if k > 0 {
      MergeOfLongParts(files, blob, n, k - 1);
      PartsTile(|blob|, n, k - 1);
      var from, to := PartStart(|blob|, n, k - 1), PartStart(|blob|, n, k);
      PartEndsInFile(|blob|, n, k - 1);
      LastPieces(Merged(files, k - 1).value, files[k - 1], blob, from, to);
    } else {
      PartsTile(|blob|, n, 0);
    }
  }

  lemma PartEndsInFile(size: nat, n: nat, i: nat)
    requires i < n
    ensures PartStart(size, n, i + 1) <= size
  {
    PartsTile(size, n, i);
    PartInFile(size, n, i);
  }

  lemma LastPieces(before: Bytes, last: Bytes, blob: Bytes, from: nat, to: nat)
    requires from <= to <= |blob| && |before| >= from && |last| >= to - from
    ensures before + last == blob[..to] ==> before == blob[..from] && last == blob[from..to]
  {
    if before + last == blob[..to] {
      assert |before| == from && |last| == to - from;
      assert before == (before + last)[..from] && last == (before + last)[from..];
      assert blob[..to][..from] == blob[..from] && blob[..to][from..] == blob[from..to];
    }
  }

  lemma SpoiledNeverMerges(c: Client, hash: string, blob: Bytes, n: nat, i: nat)
    requires Spoiled(c, hash, blob, n, i) && c.meta.Some?
    requires MetaShaped(c.meta.value) && AllFinished(Synced(c.meta.value, c.disk.files))
    ensures Merged(c.disk.files, n) != Some(blob)
  {
    if Merged(c.disk.files, n).Some? {
      FinishedPartsAreLong(c.meta.value, c.disk.files, hash, blob, n);
      MergeOfLongParts(c.disk.files, blob, n, n);
      PartsTile(|blob|, n, i);
      assert blob[..|blob|] == blob;
    }
  }

  lemma FinishedPartsAreLong(m: TaskMeta, files: map<int, Bytes>, hash: string, blob: Bytes, n: nat)
    requires RangesOk(m, hash, blob, n) && Merged(files, n).Some? && MetaShaped(m) && AllFinished(Synced(m, files))
    ensures forall j :: 0 <= j < n ==> j in files && |files[j]| >= PartLen(|blob|, n, j)
  {
    hide PartStart, PartLen, MetaFits;
    forall j | 0 <= j < n
      ensures j in files && |files[j]| >= PartLen(|blob|, n, j)
    {
      if j !in files {
        MergeNeeds(files, n, j);
      }
      assert PartFinished(Synced(m, files).parts[j]);
    }
  }

  lemma SavingStaysSpoiled(c: Client, m: TaskMeta, hash: string, blob: Bytes, n: nat, i: nat)
    requires SpoiledPart(c.disk.files, blob, n, i) && RangesOk(m, hash, blob, n) && MetaShaped(m)
    ensures Spoiled(SaveSynced(c, m), hash, blob, n, i)
  {
    hide MetaText, MetaFits, PartStart;
    SyncedRanges(m, c.disk.files, hash, blob, n);
    var m' := Synced(m, c.disk.files);
    assert m' == Synced(m, c.disk.files) && PartFinished(m'.parts[i]);
    assert SavedOk(Some(MetaText(m')), hash, blob, n);
  }

  lemma CuttingStaysSpoiled(c: Client, m: TaskMeta, written: nat, hash: string, blob: Bytes, n: nat, i: nat)
    requires SpoiledPart(c.disk.files, blob, n, i) && RangesOk(m, hash, blob, n) && MetaShaped(m)
    ensures Spoiled(SaveCut(c, m, written), hash, blob, n, i)
  {
    hide MetaText, MetaFits, PartStart, PartLen;
    assert SaveCut(c, m, written).disk.ini.value <= MetaText(m);
    assert SavedOk(SaveCut(c, m, written).disk.ini, hash, blob, n);
  }

  lemma PlanStaysSpoiled(c: Client, plan: Plan, hash: string, blob: Bytes, n: nat, i: nat)
    requires Spoiled(c, hash, blob, n, i) && PlanFor(plan, hash, blob, n)
    ensures Prepare(c.disk, plan).Some? && RangesOk(Prepare(c.disk, plan).value, hash, blob, n)
  {
    hide SavedOk, RangesOk, Prepare;
    var n0 :| SavedOk(c.disk.ini, hash, blob, n0);
    PrepareGivesFreshRanges(c.disk, plan, hash, blob, n0);
  }

  // Such a part is never fetched again and never cleaned away.
  lemma NextStaysSpoiled(c: Client, e: Event, hash: string, blob: Bytes, n: nat, i: nat)
    requires Spoiled(c, hash, blob, n, i) && SamePlan(c, e, hash, blob, n)
    ensures Spoiled(Next(c, e, blob), hash, blob, n, i)
  {
    hide SpoiledPart, SavedOk, RangesOk, PlanFor, Prepare, Synced, AllFinished, Merged, SaveSynced, SaveCut;
    if c.meta.Some? {
      RangesAreShaped(c.meta.value, hash, blob, n);
    }
    match e
    case Start(plan) =>
      PlanStaysSpoiled(c, plan, hash, blob, n, i);
      SavingStaysSpoiled(c, Prepare(c.disk, plan).value, hash, blob, n, i);
    case StartCut(plan, written) =>
      PlanStaysSpoiled(c, plan, hash, blob, n, i);
      CuttingStaysSpoiled(c, Prepare(c.disk, plan).value, written, hash, blob, n, i);
    case Fetch(j, kept) =>
      OtherPartFetched(c, j, kept, hash, blob, n, i);
    case Sync =>
      if c.meta.Some? {
        SavingStaysSpoiled(c, c.meta.value, hash, blob, n, i);
      }
    case SyncCut(written) =>
      if c.meta.Some? {
        SyncedRanges(c.meta.value, c.disk.files, hash, blob, n);
        CuttingStaysSpoiled(c, Synced(c.meta.value, c.disk.files), written, hash, blob, n, i);
      }
    case Finish(hashOk, removed) =>
      if c.meta.Some? {
        if AllFinished(Synced(c.meta.value, c.disk.files)) {
          SpoiledNeverMerges(c, hash, blob, n, i);
        }
        SavingStaysSpoiled(c, c.meta.value, hash, blob, n, i);
      }
    case Stop =>
  }

  lemma OtherPartFetched(c: Client, j: int, kept: nat, hash: string, blob: Bytes, n: nat, i: nat)
    requires Spoiled(c, hash, blob, n, i) && Possible(c, Fetch(j, kept), hash, blob, n)
    ensures Spoiled(Next(c, Fetch(j, kept), blob), hash, blob, n, i)
  {
    hide SavedOk, RangesOk, Fetched;
    assert j != i;
  }

  // A spoiled part stays for good: as long as plans name that many sources, no gets ever
  // hands out the file, and every one of them leaves the part where it is.
  lemma {:induction false} SpoiledForGood(c: Client, es: seq<Event>, hash: string, blob: Bytes, n: nat, i: nat)
    requires Spoiled(c, hash, blob, n, i) && SamePlanRun(c, es, hash, blob, n)
    ensures var c' := Run(c, es, blob);
            && Spoiled(c', hash, blob, n, i)
            && (c'.meta.Some? && MetaShaped(c'.meta.value) && AllFinished(Synced(c'.meta.value, c'.disk.files)) ==>
                  Merged(c'.disk.files, n) != Some(blob))
    decreases |es|
  {
    hide Spoiled, SamePlan, RangesOk, Next;
    if es == [] {
      if c.meta.Some? && MetaShaped(c.meta.value) && AllFinished(Synced(c.meta.value, c.disk.files)) {
        SpoiledNeverMerges(c, hash, blob, n, i);
      }
    } else {
      NextStaysSpoiled(c, es[0], hash, blob, n, i);
      SpoiledForGood(Next(c, es[0], blob), es[1..], hash, blob, n, i);
    }
  }

  // ---------------------------------------------------------------- one source, then two

  const ONE_OF_FOUR := Plan("f", "h", 4, [Source("a", "1")])
  const TWO_OF_FOUR := Plan("f", "h", 4, [Source("a", "1"), Source("b", "1")])

  lemma SplitsOfFour()
    ensures PartLen(4, 1, 0) == 4 && PartStart(4, 1, 0) == 0
    ensures PartLen(4, 2, 0) == PartLen(4, 2, 1) == 2 && PartStart(4, 2, 0) == 0 && PartStart(4, 2, 1) == 2
  {
  }

  lemma TwoCannotFollowOne()
    ensures !CanTakeOver(4, 1, 2)
  {
    hide PartStart, PartLen;
    SplitsOfFour();
    assert 0 <= 0 < Min(1, 2) && PartLen(4, 1, 0) > PartLen(4, 2, 0);
  }

  lemma PlansOfFour(blob: Bytes)
    requires |blob| == 4
    ensures PlanFor(ONE_OF_FOUR, "h", blob, 1) && PlanFor(TWO_OF_FOUR, "h", blob, 2)
  {
  }

  // What a fresh split looks like in memory, when none of its parts, or some, are on disk.
  lemma FreshClient(c: Client, plan: Plan, hash: string, blob: Bytes, n: nat)
    requires PlanFor(plan, hash, blob, n) && Prepare(c.disk, plan) == Some(FreshMeta(plan))
    ensures var c' := Next(c, Start(plan), blob);
            && c'.disk.files == c.disk.files && SavedOk(c'.disk.ini, hash, blob, n) && c'.meta.Some?
            && RangesOk(c'.meta.value, hash, blob, n) && MetaShaped(c'.meta.value)
            && c'.meta.value == Synced(FreshMeta(plan), c.disk.files)
  {
    hide Prepare, FreshMeta, RangesOk, Synced, MetaText;
    FreshRanges(plan, hash, blob, n);
    RangesAreShaped(FreshMeta(plan), hash, blob, n);
    var m := Synced(FreshMeta(plan), c.disk.files);
    SyncedRanges(FreshMeta(plan), c.disk.files, hash, blob, n);
    RangesAreShaped(m, hash, blob, n);
    assert RangesOk(m, hash, blob, n) && MetaText(m) <= MetaText(m);
  }

  // The first plan has one source; its part comes in whole, and the client ends before the merge.
  lemma OneSourceFetched(blob: Bytes)
    requires |blob| == 4
    ensures var es := [Start(ONE_OF_FOUR), Fetch(0, 4), Stop];
            var c := Run(NOTHING_YET, es, blob);
            && PossibleRun(NOTHING_YET, es, "h", blob, 1)
            && c.meta == None && c.disk.files == map[0 := blob] && SavedOk(c.disk.ini, "h", blob, 1)
  {
    hide Prepare, SaveSynced, Synced, PlanFor, SavedOk, FreshMeta, MetaFits, Fetched, PartStart, PartLen;
    var es := [Start(ONE_OF_FOUR), Fetch(0, 4), Stop];
    PlansOfFour(blob);
    SplitsOfFour();
    NothingSaved(ONE_OF_FOUR);
    FreshClient(NOTHING_YET, ONE_OF_FOUR, "h", blob, 1);
    var c1 := Next(NOTHING_YET, es[0], blob);
    NothingFinished(FreshMeta(ONE_OF_FOUR), 0);
    var c2 := Next(c1, es[1], blob);
    WholeFetch(blob, 4);
    assert blob[0..4] == blob && c2.disk.files == map[0 := blob];
    var c3 := Next(c2, es[2], blob);
    assert es[1..] == [es[1], es[2]] && es[1..][1..] == [es[2]] && es[1..][1..][1..] == [];
    assert PossibleRun(c3, [], "h", blob, 1) && Run(c3, [], blob) == c3;
    assert PossibleRun(c2, [es[2]], "h", blob, 1) && Run(c2, [es[2]], blob) == c3;
    assert PossibleRun(c1, es[1..], "h", blob, 1) && Run(c1, es[1..], blob) == c3;
  }

  lemma NothingSaved(plan: Plan)
    requires PlanUsable(plan)
    ensures Prepare(NO_TASK, plan) == Some(FreshMeta(plan))
  {
  }

  lemma NothingFinished(m: TaskMeta, i: nat)
    requires MetaShaped(m) && i < m.partCount
    ensures Synced(m, map[]).parts[i].finished == 0
  {
  }

  lemma {:induction false} RunAppend(c: Client, a: seq<Event>, b: seq<Event>, blob: Bytes)
    ensures Run(c, a + b, blob) == Run(Run(c, a, blob), b, blob)
    decreases |a|
  {
    hide Next;
    if a == [] {
      assert a + b == b;
    } else {
      assert (a + b)[1..] == a[1..] + b;
      RunAppend(Next(c, a[0], blob), a[1..], b, blob);
    }
  }

  // Then a plan with two sources: the whole file passes for its first half, and the second
  // half is fetched.
  lemma TwoSourcesFetched(c: Client, blob: Bytes)
    requires |blob| == 4 && c.meta == None && c.disk.files == map[0 := blob] && SavedOk(c.disk.ini, "h", blob, 1)
    ensures var c1 := Next(c, Start(TWO_OF_FOUR), blob);
            var c2 := Next(c1, Fetch(1, 2), blob);
            && Possible(c1, Fetch(1, 2), "h", blob, 2)
            && c2.disk.files == map[0 := blob, 1 := blob[2..]] && SavedOk(c2.disk.ini, "h", blob, 2)
            && c2.meta.Some? && RangesOk(c2.meta.value, "h", blob, 2) && MetaShaped(c2.meta.value)
            && PartFinished(c2.meta.value.parts[0]) && AllFinished(Synced(c2.meta.value, c2.disk.files))
  {
    hide Prepare, SaveSynced, PlanFor, SavedOk, FreshMeta, MetaFits, Fetched, PartStart, PartLen;
    PlansOfFour(blob);
    SplitsOfFour();
    PrepareGivesFreshRanges(c.disk, TWO_OF_FOUR, "h", blob, 1);
    FreshClient(c, TWO_OF_FOUR, "h", blob, 2);
    FreshRanges(TWO_OF_FOUR, "h", blob, 2);
    WholeFetch(blob[2..], 2);
    assert blob[2..4] == blob[2..];
    var c1 := Next(c, Start(TWO_OF_FOUR), blob);
    FinishedAsOnDisk(FreshMeta(TWO_OF_FOUR), "h", blob, 2, c.disk.files);
  }

  lemma FinishedAsOnDisk(m: TaskMeta, hash: string, blob: Bytes, n: nat, files: map<int, Bytes>)
    requires RangesOk(m, hash, blob, n)
    ensures forall i :: 0 <= i < n ==>
              var p := Synced(m, files).parts[i];
              PartSize(p) == PartLen(|blob|, n, i)
              && p.finished == if i !in files then 0 else Min(|files[i]|, PartLen(|blob|, n, i))
  {
    hide MetaFits, PartStart, PartLen;
    RangesAreShaped(m, hash, blob, n);
  }

  // Any four bytes. Every single step is one the client takes; only the second plan cannot
  // follow the first. Everything counts as finished, the merge is six bytes long, and the
  // first part stays spoiled.
  lemma OtherSourceCountCorrupts(blob: Bytes)
    requires |blob| == 4
    ensures var first, second := [Start(ONE_OF_FOUR), Fetch(0, 4), Stop], [Start(TWO_OF_FOUR), Fetch(1, 2)];
            var c := Run(NOTHING_YET, first + second, blob);
            && PossibleRun(NOTHING_YET, first, "h", blob, 1)
            && PlanFor(TWO_OF_FOUR, "h", blob, 2) && !CanTakeOver(4, 1, 2)
            && Possible(Run(NOTHING_YET, first + [second[0]], blob), second[1], "h", blob, 2)
            && c.meta.Some? && MetaShaped(c.meta.value) && AllFinished(Synced(c.meta.value, c.disk.files))
            && Merged(c.disk.files, 2) == Some(blob + blob[2..]) && Spoiled(c, "h", blob, 2, 0)
  {
    hide Next, Possible, PlanFor, AllFinished, RangesOk, CanTakeOver, PossibleRun, SavedOk, Synced;
    var first, second := [Start(ONE_OF_FOUR), Fetch(0, 4), Stop], [Start(TWO_OF_FOUR), Fetch(1, 2)];
    PlansOfFour(blob);
    TwoCannotFollowOne();
    OneSourceFetched(blob);
    var c3 := Run(NOTHING_YET, first, blob);
    TwoSourcesFetched(c3, blob);
    RunAppend(NOTHING_YET, first, [second[0]], blob);
    RunAppend(NOTHING_YET, first, second, blob);
    assert second[1..] == [second[1]] && second[1..][1..] == [] && [second[0]][1..] == [];
    var c4 := Next(c3, second[0], blob);
    var c5 := Next(c4, second[1], blob);
    assert Run(c4, [], blob) == c4 && Run(c5, [], blob) == c5 && Run(c4, [second[1]], blob) == c5;
    SixBytes(c5.disk.files, blob);
  }

  lemma SixBytes(files: map<int, Bytes>, blob: Bytes)
    requires |blob| == 4 && files == map[0 := blob, 1 := blob[2..]]
    ensures Merged(files, 2) == Some(blob + blob[2..]) && SpoiledPart(files, blob, 2, 0)
  {
    SplitsOfFour();
    hide PartStart, PartLen;
    var nothing: Bytes := [];
    assert Merged(files, 1) == Some(nothing + files[0]) && nothing + files[0] == files[0];
    assert |Slice(blob, 2, 0)| == 2;
  }
}
