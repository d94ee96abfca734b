// A resumable download from several sources, as steps on the client's task directory: the
// plan is turned into ranges, each range is fetched into its own part file over any number
// of broken connections and client restarts, and the parts are merged.
module PartDownload {
  import opened Wrappers
  import opened Limits
  import opened Tables
  import opened MetaIni
  import opened MetaIniCut
  import opened RangeSplit
  import opened SocketIo

  datatype Source = Source(ip: string, port: string)
  datatype Plan = Plan(fileName: string, fileHash: string, fileSize: int, sources: seq<Source>)

  // One directory per file hash: meta.ini and the part files by number.
  datatype TaskDisk = TaskDisk(ini: Option<string>, files: map<int, Bytes>)

  // ---------------------------------------------------------------- the task

  function FreshPart(size: nat, sources: seq<Source>, i: nat): PartInfo
    requires i < |sources|
  {
    var start := PartStart(size, |sources|, i);
    PartInfo(i, start, start + PartLen(size, |sources|, i) - 1, 0, sources[i].ip, sources[i].port)
  }

  // init_parts_from_plan: the first |sources| entries of `parts` are filled.
  function FreshParts(parts: seq<PartInfo>, size: nat, sources: seq<Source>): seq<PartInfo>
    requires |sources| <= |parts|
  {
    seq(|sources|, i requires 0 <= i < |sources| => FreshPart(size, sources, i)) + parts[|sources|..]
  }

  predicate PlanUsable(plan: Plan)
  {
    plan.fileSize >= 0 && 0 < |plan.sources| <= MAX_SOURCES
  }

  function FreshMeta(plan: Plan): TaskMeta
    requires PlanUsable(plan)
  {
    TaskMeta(plan.fileName, plan.fileHash, plan.fileSize, |plan.sources|,
             FreshParts(ZERO_META.parts, plan.fileSize, plan.sources))
  }

  // is_meta_compatible
  predicate Compatible(m: TaskMeta, plan: Plan)
  {
    && m.fileName == plan.fileName && m.fileHash == plan.fileHash && m.fileSize == plan.fileSize
    && 0 < m.partCount <= MAX_SOURCES && m.partCount == |plan.sources| && m.partCount <= |m.parts|
    && forall i :: 0 <= i < m.partCount ==>
         m.parts[i].ip == plan.sources[i].ip && m.parts[i].port == plan.sources[i].port
  }

  function PartSize(p: PartInfo): int
  {
    p.end - p.start + 1
  }

  // The progress of one part as its file shows it, never more than the part's size.
  function FinishedBytes(p: PartInfo, files: map<int, Bytes>, i: int): int
  {
    if i !in files then 0 else if |files[i]| < PartSize(p) then |files[i]| else PartSize(p)
  }

  // sync_finished_bytes_from_part_files
  function Synced(m: TaskMeta, files: map<int, Bytes>): (r: TaskMeta)
    requires 0 <= m.partCount <= |m.parts|
    ensures |r.parts| == |m.parts| && r.partCount == m.partCount
  {
    m.(parts := seq(m.partCount, i requires 0 <= i < m.partCount =>
                      m.parts[i].(finished := FinishedBytes(m.parts[i], files, i))) + m.parts[m.partCount..])
  }

  predicate PartFinished(p: PartInfo)
  {
    p.finished >= PartSize(p)
  }

  predicate AllFinished(m: TaskMeta)
    requires 0 <= m.partCount <= |m.parts|
  {
    forall i :: 0 <= i < m.partCount ==> PartFinished(m.parts[i])
  }

  predicate MetaShaped(m: TaskMeta)
  {
    0 <= m.partCount <= |m.parts| == MAX_SOURCES
  }

  // multipart_task_prepare: carry on with a compatible meta.ini, or start the task afresh.
  // Part files are left alone in both cases.
  function Prepare(d: TaskDisk, plan: Plan): (r: Option<TaskMeta>)
    ensures r.Some? ==> MetaShaped(r.value)
  {
    var loaded := if d.ini.Some? then LoadText(ZERO_META, d.ini.value) else ZERO_META;
    if d.ini.Some? && Compatible(loaded, plan) then Some(Synced(loaded, d.files))
    else if PlanUsable(plan) then Some(FreshMeta(plan))
    else None
  }

  // Whatever was on disk, a prepared task is the plan's: its file, and its sources in order.
  lemma PreparedFollowsPlan(d: TaskDisk, plan: Plan)
    ensures Prepare(d, plan).Some? ==>
              var m := Prepare(d, plan).value;
              && m.fileName == plan.fileName && m.fileHash == plan.fileHash && m.fileSize == plan.fileSize
              && 0 < m.partCount == |plan.sources| <= MAX_SOURCES == |m.parts|
              && forall i :: 0 <= i < |plan.sources| ==>
                   m.parts[i].ip == plan.sources[i].ip && m.parts[i].port == plan.sources[i].port
    ensures plan.fileSize >= 0 && 0 < |plan.sources| <= MAX_SOURCES ==> Prepare(d, plan).Some?
  {
    hide LoadText, PartStart, PartLen;
  }

  // The saved task that a plan asks for.
  predicate AskedFor(m: TaskMeta, plan: Plan)
    requires 0 <= m.partCount <= |m.parts|
  {
    && m.fileName == plan.fileName && m.fileHash == plan.fileHash && m.fileSize == plan.fileSize
    && 0 < m.partCount == |plan.sources|
    && forall i :: 0 <= i < m.partCount ==> Source(m.parts[i].ip, m.parts[i].port) == plan.sources[i]
  }

  // A saved task is carried on, with the ranges it was saved with and the progress its part
  // files show, if it is the one the plan asks for; otherwise the plan is split afresh.
  lemma PrepareResumesIff(m: TaskMeta, files: map<int, Bytes>, plan: Plan)
    requires MetaFits(m) && |m.fileName| <= LONGEST_NAME && PlanUsable(plan)
    ensures var r := Prepare(TaskDisk(Some(MetaText(m)), files), plan);
            if AskedFor(m, plan) then
              && r.Some?
              && forall i :: 0 <= i < m.partCount ==>
                   r.value.parts[i] == m.parts[i].(finished := FinishedBytes(m.parts[i], files, i))
            else r == Some(FreshMeta(plan))
  {
    hide LoadText, MetaText, FreshMeta, FinishedBytes;
    SaveThenLoad(m);
    var l := LoadText(ZERO_META, MetaText(m));
    assert SameSaved(l, m);
    assert Compatible(l, plan) <==> AskedFor(m, plan);
  }

  // ---------------------------------------------------------------- one transfer

  // The offset the client asks for, given the size the server announced.
  function RequestOffset(local: nat, total: nat): nat
  {
    if local <= total then local else 0
  }

  // How many bytes the client then takes off the connection.
  function GetsWaitsFor(local: nat, total: nat): nat
  {
    total - RequestOffset(local, total)
  }

  // The offset the server then sends from.
  function ServedOffset(requested: int, total: nat): nat
  {
    if requested < 0 || requested > total then 0 else requested
  }

  // What one connection leaves on disk when `kept` more bytes of the range get that far.
  // A part that is complete already is not even opened.
  function Fetched(range: Bytes, local: Option<Bytes>, kept: nat): Option<Bytes>
  {
    var have := if local.Some? then local.value else [];
    var offset := RequestOffset(|have|, |range|);
    if offset == |range| then local
    else Some(have[..offset] + Carried(range[offset..], kept))
  }

  // merge_part_files: parts in order; a missing part file is an error.
  function Merged(files: map<int, Bytes>, n: nat): Option<Bytes>
  {
    if n == 0 then Some([])
    else match Merged(files, n - 1)
      case None => None
      case Some(bytes) => if n - 1 in files then Some(bytes + files[n - 1]) else None
  }

  // ---------------------------------------------------------------- runs

  // The client's memory holds the task while a gets is under way.
  datatype Client = Client(disk: TaskDisk, meta: Option<TaskMeta>)

  // The client can end between any two events, and while it saves or cleans up.
  datatype Event =
    | Start(plan: Plan)                      // gets: prepare the task and refresh its progress
    | StartCut(plan: Plan, written: nat)     // the client ends while it saves the prepared task
    | Fetch(i: int, kept: nat)               // one transfer connection for part i
    | Sync                                   // the progress is refreshed
    | SyncCut(written: nat)                  // the client ends while it saves the progress
    | Finish(hashOk: bool, removed: nat)     // refresh, merge, check, clean up so many part files
    | Stop

  function SaveSynced(c: Client, m: TaskMeta): Client
    requires 0 <= m.partCount <= |m.parts|
  {
    var m' := Synced(m, c.disk.files);
    Client(c.disk.(ini := Some(MetaText(m'))), Some(m'))
  }

  // save_meta_file truncates first and then prints.
  function SaveCut(c: Client, m: TaskMeta, written: nat): Client
    requires 0 <= m.partCount <= |m.parts|
  {
    var text := MetaText(m);
    Client(c.disk.(ini := Some(if written < |text| then text[..written] else text)), None)
  }

  // multipart_task_cleanup: meta.ini first, then the part files in order.
  function CleanedUp(d: TaskDisk, removed: int): TaskDisk
  {
    TaskDisk(None, map i | i in d.files && !(0 <= i < removed) :: d.files[i])
  }

  function Next(c: Client, e: Event, blob: Bytes): Client
  {
    match e
    case Start(plan) =>
      (match Prepare(c.disk, plan)
       case Some(m) => SaveSynced(c, m)
       case None => c.(meta := None))
    case StartCut(plan, written) =>
      (match Prepare(c.disk, plan)
       case Some(m) => SaveCut(c, m, written)
       case None => c.(meta := None))
    case Fetch(i, kept) =>
      if c.meta.Some? && 0 <= i < c.meta.value.partCount <= |c.meta.value.parts|
         && 0 <= c.meta.value.parts[i].start <= c.meta.value.parts[i].end < |blob| then
        var p := c.meta.value.parts[i];
        var local := if i in c.disk.files then Some(c.disk.files[i]) else None;
        match Fetched(blob[p.start..p.end + 1], local, kept)
        case Some(bytes) => c.(disk := c.disk.(files := c.disk.files[i := bytes]))
        case None => c
      else c
    case Sync => if c.meta.Some? && MetaShaped(c.meta.value) then SaveSynced(c, c.meta.value) else c
    case SyncCut(written) =>
      if c.meta.Some? && MetaShaped(c.meta.value) then SaveCut(c, Synced(c.meta.value, c.disk.files), written)
      else c.(meta := None)
    case Finish(hashOk, removed) =>
      if c.meta.Some? && MetaShaped(c.meta.value) then
        var m := Synced(c.meta.value, c.disk.files);
        if AllFinished(m) && Merged(c.disk.files, c.meta.value.partCount).Some? && hashOk then
          Client(CleanedUp(c.disk, Min(removed, c.meta.value.partCount)), None)
        else SaveSynced(c, c.meta.value).(meta := None)
      else c.(meta := None)
    case Stop => c.(meta := None)
  }

  const NO_TASK := TaskDisk(None, map[])

  // The plans for one file: any name, any n addresses. A ticket for an empty port is refused.
  predicate PlanFor(plan: Plan, hash: string, blob: Bytes, n: nat)
  {
    && plan.fileHash == hash && plan.fileSize == |blob| && |plan.sources| == n
    && 0 < n <= MAX_SOURCES && IsOffT(|blob|)
    && Clean(hash) && |hash| < HASH_BUFFER
    && Clean(plan.fileName) && |plan.fileName| < NAME_BUFFER
    && forall i :: 0 <= i < n ==>
         && Clean(plan.sources[i].ip) && |plan.sources[i].ip| < IP_BUFFER
         && Clean(plan.sources[i].port) && 0 < |plan.sources[i].port| < PORT_BUFFER
  }

  // The number of sources after an event: a plan brings its own.
  function Sources(e: Event, n: nat): nat
  {
    match e
    case Start(plan) => |plan.sources|
    case StartCut(plan, _) => |plan.sources|
    case _ => n
  }

  // A plan whose ranges can follow those of the task on disk, if there is any.
  predicate CanFollow(c: Client, plan: Plan, hash: string, blob: Bytes, n: nat)
  {
    && PlanFor(plan, hash, blob, |plan.sources|)
    && (c.disk == NO_TASK || (n > 0 && CanTakeOver(|blob|, n, |plan.sources|)))
  }

  // As long as anything of an earlier task is on disk, a plan must be able to take it over; one
  // with the same number of sources always is. A part is fetched only while the task says it
  // is unfinished.
  predicate Possible(c: Client, e: Event, hash: string, blob: Bytes, n: nat)
  {
    match e
    case Start(plan) => CanFollow(c, plan, hash, blob, n)
    case StartCut(plan, _) => CanFollow(c, plan, hash, blob, n)
    case Fetch(i, _) => c.meta.Some? && 0 <= i < c.meta.value.partCount <= |c.meta.value.parts|
                        && !PartFinished(c.meta.value.parts[i])
    case _ => true
  }

  // The task's ranges are those of a fresh split of the file.
  predicate RangesOk(m: TaskMeta, hash: string, blob: Bytes, n: nat)
  {
    && MetaFits(m) && m.fileHash == hash && m.fileSize == |blob| && m.partCount == n > 0
    && forall i :: 0 <= i < n ==>
         && m.parts[i].start == PartStart(|blob|, n, i)
         && m.parts[i].end == PartStart(|blob|, n, i) + PartLen(|blob|, n, i) - 1
         && m.parts[i].finished >= 0
  }

  // meta.ini is a saved task, or as much of one as a killed client has written.
  ghost predicate SavedOk(ini: Option<string>, hash: string, blob: Bytes, n: nat)
  {
    ini.Some? ==> exists m :: RangesOk(m, hash, blob, n) && ini.value <= MetaText(m)
  }

  // Every part file is the beginning of its own range; files of parts that the split does not
  // have may be left from an earlier one. A part without bytes never had a file.
  predicate FilesOk(files: map<int, Bytes>, blob: Bytes, n: nat)
  {
    forall i :: i in files ==> 0 <= i < |blob| && (i < n ==> files[i] <= Slice(blob, n, i))
  }

  ghost predicate ClientOk(c: Client, hash: string, blob: Bytes, n: nat)
  {
    && SavedOk(c.disk.ini, hash, blob, n) && FilesOk(c.disk.files, blob, n)
    && (c.meta.Some? ==> RangesOk(c.meta.value, hash, blob, n))
  }

  lemma FreshRanges(plan: Plan, hash: string, blob: Bytes, n: nat)
    requires PlanFor(plan, hash, blob, n)
    ensures RangesOk(FreshMeta(plan), hash, blob, n)
  {
    forall i | 0 <= i < n
      ensures PartFits(FreshMeta(plan).parts[i], i)
    {
      PartInFile(|blob|, n, i);
      PartStartIsMonotone(|blob|, n, 0, i);
    }
  }

  lemma RangesAreShaped(m: TaskMeta, hash: string, blob: Bytes, n: nat)
    requires RangesOk(m, hash, blob, n)
    ensures MetaShaped(m) && MetaFits(m) && m.partCount == n > 0
  {
  }

  lemma SyncedRanges(m: TaskMeta, files: map<int, Bytes>, hash: string, blob: Bytes, n: nat)
    requires RangesOk(m, hash, blob, n)
    ensures RangesOk(Synced(m, files), hash, blob, n)
  {
  }

  // What a compatible plan accepts of a saved task has the saved task's ranges.
  lemma AcceptedRanges(l: TaskMeta, m: TaskMeta, plan: Plan, hash: string, blob: Bytes, n: nat)
    requires RangesOk(m, hash, blob, n) && PlanFor(plan, hash, blob, n)
    requires SameButLastPort(l, m) && Compatible(l, plan)
    ensures RangesOk(l, hash, blob, n)
  {
    forall i | 0 <= i < n
      ensures PartFits(l.parts[i], i) && l.parts[i] == m.parts[i].(port := l.parts[i].port)
    {
      assert i < n - 1 ==> l.parts[i] == l.parts[..n - 1][i] == m.parts[..n - 1][i] == m.parts[i];
    }
  }

  // A meta.ini accepted as compatible, cut off or not, is one of the same number of sources
  // and carries the ranges a fresh split would give; what is not accepted is split afresh.
  lemma PrepareGivesFreshRanges(d: TaskDisk, plan: Plan, hash: string, blob: Bytes, n: nat)
    requires SavedOk(d.ini, hash, blob, n) && PlanFor(plan, hash, blob, |plan.sources|)
    ensures Prepare(d, plan).Some? && RangesOk(Prepare(d, plan).value, hash, blob, |plan.sources|)
    ensures n != |plan.sources| ==> Prepare(d, plan) == Some(FreshMeta(plan))
  {
    hide LoadText, FreshMeta, Synced, SavedOk, RangesOk;
    FreshRanges(plan, hash, blob, |plan.sources|);
    if d.ini.Some? {
      var l := LoadText(ZERO_META, d.ini.value);
      if Compatible(l, plan) {
        LoadedRanges(d.ini.value, plan, hash, blob, n);
        SyncedRanges(l, d.files, hash, blob, n);
      }
    }
  }

  lemma LoadedRanges(text: string, plan: Plan, hash: string, blob: Bytes, n: nat)
    requires SavedOk(Some(text), hash, blob, n) && PlanFor(plan, hash, blob, |plan.sources|)
    requires Compatible(LoadText(ZERO_META, text), plan)
    ensures n == |plan.sources| && RangesOk(LoadText(ZERO_META, text), hash, blob, n)
  {
    hide LoadText, MetaText, SameButLastPort;
    var m :| RangesOk(m, hash, blob, n) && text <= MetaText(m);
    RangesAreShaped(m, hash, blob, n);
    CutFile(m, text);
    var l := LoadText(ZERO_META, text);
    if SameButLastPort(l, m) {
      CountOfSame(l, m);
      AcceptedRanges(l, m, plan, hash, blob, n);
    }
  }

  lemma CountOfSame(l: TaskMeta, m: TaskMeta)
    requires 0 < m.partCount <= |m.parts| && SameButLastPort(l, m)
    ensures l.partCount == m.partCount
  {
  }

  // A part file that is too long is fetched from the start again.
  lemma FetchStartsOver(range: Bytes, local: Bytes, kept: nat)
    requires |local| > |range| > 0
    ensures Fetched(range, Some(local), kept) == Some(range[..Min(kept, |range|)])
  {
    var got := Carried(range[0..], kept);
    assert range[0..] == range && range[..|range|] == range;
    assert got == range[..Min(kept, |range|)] && local[..0] + got == got;
  }

  lemma FetchKeepsPrefix(range: Bytes, local: Option<Bytes>, kept: nat)
    requires local.Some? ==> local.value <= range
    ensures var r := Fetched(range, local, kept);
            && (r.Some? ==> r.value <= range && (r == local || range != []))
            && (local.Some? ==> r.Some? && local.value <= r.value)
            && (range != [] && kept >= |range| ==> r == Some(range))
  {
    match local
    case Some(have) =>
      assert range == have + range[|have|..];
      assert have[..|have|] == have && (|have| == |range| ==> have == range);
    case None =>
      var nothing: Bytes := [];
      assert nothing[..0] + range[0..] == range;
  }

  lemma SavingKeepsClient(c: Client, m: TaskMeta, hash: string, blob: Bytes, n: nat)
    requires FilesOk(c.disk.files, blob, n) && RangesOk(m, hash, blob, n)
    ensures ClientOk(SaveSynced(c, m), hash, blob, n)
  {
    hide MetaText, FilesOk, Synced;
    SyncedRanges(m, c.disk.files, hash, blob, n);
  }

  lemma FetchKeepsClient(c: Client, i: int, kept: nat, hash: string, blob: Bytes, n: nat)
    requires ClientOk(c, hash, blob, n) && Possible(c, Fetch(i, kept), hash, blob, n)
    ensures ClientOk(Next(c, Fetch(i, kept), blob), hash, blob, n)
    ensures kept >= |blob| ==> var c' := Next(c, Fetch(i, kept), blob);
                               i in c'.disk.files && |c'.disk.files[i]| == PartLen(|blob|, n, i)
  {
    hide SavedOk, MetaFits, Fetched;
    var p := c.meta.value.parts[i];
    PartInFile(|blob|, n, i);
    PartHasBytesIff(|blob|, n, i);
    SliceLength(blob, n, i);
    assert blob[p.start..p.end + 1] == Slice(blob, n, i);
    FetchKeepsPrefix(Slice(blob, n, i), if i in c.disk.files then Some(c.disk.files[i]) else None, kept);
  }

  lemma CutKeepsClient(c: Client, m: TaskMeta, written: nat, hash: string, blob: Bytes, n: nat)
    requires FilesOk(c.disk.files, blob, n) && RangesOk(m, hash, blob, n)
    ensures ClientOk(SaveCut(c, m, written), hash, blob, n)
  {
    hide MetaText, FilesOk;
    assert SaveCut(c, m, written).disk.ini.value <= MetaText(m);
  }

  // Part files stay where they are under a plan that can take them over.
  lemma TakenOver(files: map<int, Bytes>, blob: Bytes, n: nat, m: nat)
    requires n > 0 && m > 0 && FilesOk(files, blob, n) && CanTakeOver(|blob|, n, m)
    ensures FilesOk(files, blob, m)
  {
    if n < m {
      NoNewPartHasBytes(|blob|, n, m);
    }
    forall i | i in files && i < m
      ensures files[i] <= Slice(blob, m, i)
    {
      PartHasBytesIff(|blob|, n, i);
      PartInFile(|blob|, n, i);
      PartInFile(|blob|, m, i);
    }
  }

  lemma PlanFollows(c: Client, plan: Plan, hash: string, blob: Bytes, n: nat)
    requires ClientOk(c, hash, blob, n) && CanFollow(c, plan, hash, blob, n)
    ensures Prepare(c.disk, plan).Some? && RangesOk(Prepare(c.disk, plan).value, hash, blob, |plan.sources|)
    ensures FilesOk(c.disk.files, blob, |plan.sources|)
  {
    hide SavedOk, RangesOk, Prepare, FilesOk, CanTakeOver;
    var m := |plan.sources|;
    if c.disk == NO_TASK {
      EmptyDiskFits(c, hash, blob, m);
      PrepareGivesFreshRanges(c.disk, plan, hash, blob, m);
    } else {
      TakenOver(c.disk.files, blob, n, m);
      PrepareGivesFreshRanges(c.disk, plan, hash, blob, n);
    }
  }

  // Until the whole task is gone, what is left of it belongs to the split at hand; then any
  // split can follow.
  lemma NextKeepsClient(c: Client, e: Event, hash: string, blob: Bytes, n: nat)
    requires ClientOk(c, hash, blob, n) && Possible(c, e, hash, blob, n)
    ensures ClientOk(Next(c, e, blob), hash, blob, Sources(e, n))
  {
    hide SavedOk, RangesOk, FilesOk, CanFollow, CleanedUp, Prepare, Synced, AllFinished, Merged;
    match e
    case Start(plan) =>
      PlanFollows(c, plan, hash, blob, n);
      SavingKeepsClient(c, Prepare(c.disk, plan).value, hash, blob, Sources(e, n));
    case StartCut(plan, written) =>
      PlanFollows(c, plan, hash, blob, n);
      CutKeepsClient(c, Prepare(c.disk, plan).value, written, hash, blob, Sources(e, n));
    case Fetch(i, kept) =>
      FetchKeepsClient(c, i, kept, hash, blob, n);
    case Sync =>
      if c.meta.Some? {
        SavingKeepsClient(c, c.meta.value, hash, blob, n);
      }
    case SyncCut(written) =>
      if c.meta.Some? {
        RangesAreShaped(c.meta.value, hash, blob, n);
        SyncedRanges(c.meta.value, c.disk.files, hash, blob, n);
        CutKeepsClient(c, Synced(c.meta.value, c.disk.files), written, hash, blob, n);
      }
    case Finish(hashOk, removed) =>
      CleanedUpFits(c.disk, removed, hash, blob, n);
      if c.meta.Some? {
        CleanedUpFits(c.disk, Min(removed, c.meta.value.partCount), hash, blob, n);
        SavingKeepsClient(c, c.meta.value, hash, blob, n);
      }
    case Stop =>
  }

  lemma EmptyDiskFits(c: Client, hash: string, blob: Bytes, n: nat)
    ensures c.disk == NO_TASK ==> SavedOk(c.disk.ini, hash, blob, n) && FilesOk(c.disk.files, blob, n)
  {
  }

  lemma CleanedUpFits(d: TaskDisk, removed: int, hash: string, blob: Bytes, n: nat)
    requires FilesOk(d.files, blob, n)
    ensures var d' := CleanedUp(d, removed); SavedOk(d'.ini, hash, blob, n) && FilesOk(d'.files, blob, n)
  {
  }

  function Run(c: Client, es: seq<Event>, blob: Bytes): Client
    decreases |es|
  {
    if es == [] then c else Run(Next(c, es[0], blob), es[1..], blob)
  }

  predicate PossibleRun(c: Client, es: seq<Event>, hash: string, blob: Bytes, n: nat)
    decreases |es|
  {
    es == [] || (Possible(c, es[0], hash, blob, n)
                 && PossibleRun(Next(c, es[0], blob), es[1..], hash, blob, Sources(es[0], n)))
  }

  function SourcesAfter(es: seq<Event>, n: nat): nat
    decreases |es|
  {
    if es == [] then n else SourcesAfter(es[1..], Sources(es[0], n))
  }

  const NOTHING_YET := Client(NO_TASK, None)

  // Through any number of plans, broken connections, restarts and finished downloads, every
  // part file stays the beginning of its own range.
  lemma {:induction false} RunKeepsClient(c: Client, es: seq<Event>, hash: string, blob: Bytes, n: nat)
    requires ClientOk(c, hash, blob, n) && PossibleRun(c, es, hash, blob, n)
    ensures ClientOk(Run(c, es, blob), hash, blob, SourcesAfter(es, n))
    decreases |es|
  {
    if es != [] {
      NextKeepsClient(c, es[0], hash, blob, n);
      RunKeepsClient(Next(c, es[0], blob), es[1..], hash, blob, Sources(es[0], n));
    }
  }

  // Once the refreshed progress says that all parts are finished, merging gives the file,
  // if, and only if, there are no more sources than bytes: a part without bytes is finished
  // from the start, so it never gets the file that the merge insists on opening.
  lemma FinishedMergesIff(c: Client, hash: string, blob: Bytes, n: nat)
    requires ClientOk(c, hash, blob, n) && c.meta.Some?
    requires AllFinished(Synced(c.meta.value, c.disk.files))
    ensures Merged(c.disk.files, n) == if |blob| >= n then Some(blob) else None
  {
    FinishedPartsAreWhole(c, hash, blob, n);
    NoEmptyPartIff(|blob|, n);
    if |blob| >= n {
      MergedSlices(c.disk.files, blob, n, n);
      SlicesJoin(blob, n, n);
    } else {
      var i :| 0 <= i < n && PartLen(|blob|, n, i) == 0;
      MergeNeeds(c.disk.files, n, i);
    }
  }

  // Once every part file has its range, all parts are finished; with a byte for every source
  // the merge is the file.
  lemma WholePartsFinish(m: TaskMeta, files: map<int, Bytes>, hash: string, blob: Bytes, n: nat)
    requires RangesOk(m, hash, blob, n) && |blob| >= n
    requires forall i :: 0 <= i < n ==> i in files && files[i] == Slice(blob, n, i)
    ensures MetaShaped(m) && AllFinished(Synced(m, files)) && Merged(files, n) == Some(blob)
  {
    MergedSlices(files, blob, n, n);
    SlicesJoin(blob, n, n);
    RangesAreShaped(m, hash, blob, n);
    hide MetaFits, PartStart, Slice;
    forall i | 0 <= i < n
      ensures PartFinished(Synced(m, files).parts[i])
    {
      SliceLength(blob, n, i);
    }
  }

  lemma FinishedPartsAreWhole(c: Client, hash: string, blob: Bytes, n: nat)
    requires ClientOk(c, hash, blob, n) && c.meta.Some?
    requires AllFinished(Synced(c.meta.value, c.disk.files))
    ensures forall i :: 0 <= i < n ==>
              if PartLen(|blob|, n, i) > 0 then i in c.disk.files && c.disk.files[i] == Slice(blob, n, i)
              else i !in c.disk.files
  {
    hide SavedOk, MetaFits, PartStart, Slice;
    var m := Synced(c.meta.value, c.disk.files);
    forall i | 0 <= i < n
      ensures if PartLen(|blob|, n, i) > 0 then i in c.disk.files && c.disk.files[i] == Slice(blob, n, i)
              else i !in c.disk.files
    {
      assert PartFinished(m.parts[i]) && PartSize(c.meta.value.parts[i]) == PartLen(|blob|, n, i);
      SliceLength(blob, n, i);
      PartHasBytesIff(|blob|, n, i);
    }
  }

  lemma SliceLength(blob: Bytes, n: nat, i: nat)
    requires i < n
    ensures |Slice(blob, n, i)| == PartLen(|blob|, n, i)
  {
    PartInFile(|blob|, n, i);
  }

  lemma {:induction false} MergedSlices(files: map<int, Bytes>, blob: Bytes, n: nat, k: nat)
    requires k <= n && forall i :: 0 <= i < n ==> i in files && files[i] == Slice(blob, n, i)
    ensures Merged(files, k) == Some(Joined(blob, n, k))
  {
    if k > 0 {
      MergedSlices(files, blob, n, k - 1);
    }
  }

  lemma {:induction false} MergeNeeds(files: map<int, Bytes>, n: nat, i: nat)
    requires i < n && i !in files
    ensures Merged(files, n) == None
  {
    if i < n - 1 {
      MergeNeeds(files, n - 1, i);
    }
  }

  // The whole story in one line: a run that begins with an empty directory and ends with
  // everything finished yields the server's file.
  lemma DownloadDeliversTheFile(es: seq<Event>, hash: string, blob: Bytes, n: nat)
    requires PossibleRun(NOTHING_YET, es, hash, blob, n)
    requires var c := Run(NOTHING_YET, es, blob);
             c.meta.Some? && MetaShaped(c.meta.value) && AllFinished(Synced(c.meta.value, c.disk.files))
    ensures var c := Run(NOTHING_YET, es, blob);
            var parts := c.meta.value.partCount;
            Merged(c.disk.files, parts) == if |blob| >= parts then Some(blob) else None
  {
    EmptyDiskFits(NOTHING_YET, hash, blob, n);
    RunKeepsClient(NOTHING_YET, es, hash, blob, n);
    FinishedMergesIff(Run(NOTHING_YET, es, blob), hash, blob, SourcesAfter(es, n));
  }

  // A connection that carries all that is missing finishes its part for good.
  lemma FullFetchFinishes(c: Client, i: int, kept: nat, hash: string, blob: Bytes, n: nat)
    requires ClientOk(c, hash, blob, n) && Possible(c, Fetch(i, kept), hash, blob, n) && kept >= |blob|
    ensures var c' := Next(c, Fetch(i, kept), blob);
            c'.meta == c.meta && MetaShaped(c.meta.value) && PartFinished(Synced(c.meta.value, c'.disk.files).parts[i])
  {
    FetchKeepsClient(c, i, kept, hash, blob, n);
  }

  const TWO_SOURCES := Plan("f", "h", 1, [Source("a", "1"), Source("b", "1")])

  // One byte from two sources, whatever the byte: after one transfer every part counts as
  // finished, and the merge fails for want of the second part file.
  lemma OneByteTwoSourcesNeverMerge(blob: Bytes)
    requires |blob| == 1
    ensures var es := [Start(TWO_SOURCES), Fetch(0, 1)];
            && PossibleRun(NOTHING_YET, es, "h", blob, 2)
            && var c := Run(NOTHING_YET, es, blob);
               && c.meta.Some? && MetaShaped(c.meta.value) && AllFinished(Synced(c.meta.value, c.disk.files))
               && Merged(c.disk.files, 2) == None
  {
    hide Prepare, SaveSynced, Fetched, PlanFor;
    var es := [Start(TWO_SOURCES), Fetch(0, 1)];
    var c1 := Next(NOTHING_YET, Start(TWO_SOURCES), blob);
    var c2 := Next(c1, Fetch(0, 1), blob);
    TwoSourcesPlanned(blob);
    WholeFetch(blob, 1);
    assert blob[0..1] == blob && c2.disk.files == map[0 := blob];
    assert es[1..] == [Fetch(0, 1)] && es[1..][1..] == [];
    assert PossibleRun(c2, [], "h", blob, 2) && Run(c2, [], blob) == c2;
    assert PossibleRun(c1, es[1..], "h", blob, 2) && Run(c1, es[1..], blob) == c2;
    MergeNeeds(c2.disk.files, 2, 1);
  }

  lemma TwoSourcesPlanned(blob: Bytes)
    requires |blob| == 1
    ensures PlanFor(TWO_SOURCES, "h", blob, 2)
    ensures var c := Next(NOTHING_YET, Start(TWO_SOURCES), blob);
            && c.disk.files == map[] && c.meta.Some? && MetaShaped(c.meta.value) && c.meta.value.partCount == 2
            && c.meta.value.parts[0] == PartInfo(0, 0, 0, 0, "a", "1")
            && c.meta.value.parts[1] == PartInfo(1, 1, 0, 0, "b", "1")
  {
    hide MetaText, LoadText, FreshMeta;
    assert Prepare(NO_TASK, TWO_SOURCES) == Some(FreshMeta(TWO_SOURCES));
    TwoFreshParts();
  }

  lemma TwoFreshParts()
    ensures var m := FreshMeta(TWO_SOURCES);
            && MetaShaped(m) && m.partCount == 2
            && m.parts[0] == PartInfo(0, 0, 0, 0, "a", "1") && m.parts[1] == PartInfo(1, 1, 0, 0, "b", "1")
  {
    hide FreshParts, FreshPart;
    FreshPartsAt(ZERO_META.parts, 1, TWO_SOURCES.sources);
    TwoFreshPartsAre();
  }

  lemma FreshPartsAt(parts: seq<PartInfo>, size: nat, sources: seq<Source>)
    requires |sources| <= |parts|
    ensures |FreshParts(parts, size, sources)| == |parts|
    ensures forall i :: 0 <= i < |sources| ==> FreshParts(parts, size, sources)[i] == FreshPart(size, sources, i)
  {
  }

  lemma TwoFreshPartsAre()
    ensures FreshPart(1, TWO_SOURCES.sources, 0) == PartInfo(0, 0, 0, 0, "a", "1")
    ensures FreshPart(1, TWO_SOURCES.sources, 1) == PartInfo(1, 1, 0, 0, "b", "1")
  {
    hide PartStart, PartLen;
    SplitOfOne();
  }

  lemma SplitOfOne()
    ensures PartStart(1, 2, 0) == 0 && PartLen(1, 2, 0) == 1 && PartStart(1, 2, 1) == 1 && PartLen(1, 2, 1) == 0
  {
  }

  lemma WholeFetch(range: Bytes, kept: nat)
    requires |range| == kept > 0
    ensures Fetched(range, None, kept) == Some(range)
  {
    var nothing: Bytes := [];
    assert nothing[..0] + Carried(range[0..], kept) == range;
  }
}
