// The client's download task as it runs: a record updated in place, a task directory on disk,
// loops that split, save, load, fetch and merge. Each is proved to do what PartDownload says.
module MultipartTask {
  import opened Wrappers
  import opened Tables
  import opened Limits
  import opened Text
  import opened MetaIni
  import opened RangeSplit
  import opened SocketIo
  import opened PartDownload

  // The task directory of one file hash.
  class TaskDir {
    var ini: Option<string>
    var files: map<int, Bytes>

    constructor ()
      ensures ini == None && files == map[]
    {
      ini, files := None, map[];
    }
  }

  class Task {
    var fileName: string
    var fileHash: string
    var fileSize: int
    var partCount: int
    const parts: array<PartInfo>

    constructor ()
      ensures State() == ZERO_META && fresh(parts)
    {
      fileName, fileHash, fileSize, partCount := "", "", 0, 0;
      parts := new PartInfo[MAX_SOURCES](_ => ZERO_PART);
      new;
      assert parts[..] == ZERO_META.parts;
    }

    function State(): TaskMeta
      reads this, parts
    {
      TaskMeta(fileName, fileHash, fileSize, partCount, parts[..])
    }

    // memset(meta, 0, ...)
    method Clear()
      requires parts.Length == MAX_SOURCES
      modifies this, parts
      ensures State() == ZERO_META
    {
      fileName, fileHash, fileSize, partCount := "", "", 0, 0;
      forall i | 0 <= i < parts.Length {
        parts[i] := ZERO_PART;
      }
      assert parts[..] == ZERO_META.parts;
    }

    // init_parts_from_plan: an even split, the remainder handed out from the front.
    method InitPartsFromPlan(plan: Plan) returns (ok: bool)
      requires parts.Length == MAX_SOURCES
      modifies this`partCount, parts
      ensures ok == (fileSize >= 0 && 0 < |plan.sources| <= MAX_SOURCES)
      ensures ok ==> partCount == |plan.sources|
                     && parts[..] == FreshParts(old(parts[..]), fileSize, plan.sources)
      ensures !ok ==> State() == old(State())
    {
      hide PartStart, PartLen;
      if fileSize < 0 || |plan.sources| == 0 || |plan.sources| > MAX_SOURCES {
        return false;
      }
      partCount := |plan.sources|;
      var baseSize := fileSize / partCount;
      var remainder := fileSize % partCount;
      var currentStart := 0;
      ghost var longer := remainder;
      PartsTile(fileSize, partCount, 0);
      for i := 0 to partCount
        invariant partCount == |plan.sources|
        invariant remainder == if i < longer then longer - i else 0
        invariant currentStart == PartStart(fileSize, partCount, i)
        invariant forall j :: 0 <= j < i ==> parts[j] == FreshPart(fileSize, plan.sources, j)
        invariant forall j :: i <= j < MAX_SOURCES ==> parts[j] == old(parts[j])
      {
        var currentSize := baseSize;
        if remainder > 0 {
          currentSize := currentSize + 1;
          remainder := remainder - 1;
        }
        PartLenIs(fileSize, partCount, i);
        var source := plan.sources[i];
        parts[i] := PartInfo(i, currentStart, currentStart + currentSize - 1, 0, source.ip, source.port);
        PartsTile(fileSize, partCount, i);
        currentStart := parts[i].end + 1;
      }
      return true;
    }

    // The five lines of one part, as save_meta_file prints them one after the other.
    method PrintPart(i: nat) returns (text: string)
      requires i < parts.Length
      ensures text == PartText(i, parts[i])
    {
      hide PartKey, Decimal;
      var p := parts[i];
      var a, b := PartKey(i, "start") + Decimal(p.start) + "\n", PartKey(i, "end") + Decimal(p.end) + "\n";
      var c := PartKey(i, "finished") + Decimal(p.finished) + "\n";
      var d, e := PartKey(i, "ip") + p.ip + "\n", PartKey(i, "port") + p.port + "\n";
      text := a;
      text := text + b;
      text := text + c;
      text := text + d;
      text := text + e;
      Concat5(a, b, c, d, e);
    }

    // save_meta_file: the file is emptied first, and at every moment holds the text so far.
    method SaveMetaFile(dir: TaskDir)
      requires 0 <= partCount <= parts.Length
      modifies dir`ini
      ensures dir.ini == Some(MetaText(State()))
    {
      hide PartText, Decimal;
      dir.ini := Some("");
      var a, b := "file_name=" + fileName + "\n", "file_hash=" + fileHash + "\n";
      var c, d := "file_size=" + Decimal(fileSize) + "\n", "part_count=" + Decimal(partCount) + "\n";
      var text := a + b;
      text := text + c;
      text := text + d;
      Concat5(a, b, c, d, PartsText(parts[..], 0, partCount));
      dir.ini := Some(text);
      for i := 0 to partCount
        invariant dir.ini == Some(text)
        invariant text + PartsText(parts[..], i, partCount) == MetaText(State())
      {
        var lines := PrintPart(i);
        Concat3(text, lines, PartsText(parts[..], i + 1, partCount));
        text := text + lines;
        dir.ini := Some(text);
      }
      assert text + "" == text;
    }

    // One turn of the loop over the part numbers in load_meta_file.
    method ReadPartField(line: string, i: nat) returns (consumed: bool)
      requires parts.Length == MAX_SOURCES && i < MAX_SOURCES
      modifies parts
      ensures (State(), consumed) == PartStep(old(State()), line, i)
    {
      hide PartKey, Atoll, ParseString;
      var key := PartKey(i, "start");
      if key <= line {
        parts[i] := parts[i].(start := Atoll(line[|key|..]), index := i);
        return true;
      }
      key := PartKey(i, "end");
      if key <= line {
        parts[i] := parts[i].(end := Atoll(line[|key|..]), index := i);
        return true;
      }
      key := PartKey(i, "finished");
      if key <= line {
        parts[i] := parts[i].(finished := Atoll(line[|key|..]), index := i);
        return true;
      }
      var (ip, ipOk) := ParseString(line, PartKey(i, "ip"), IP_BUFFER, parts[i].ip);
      parts[i] := parts[i].(ip := ip);
      if ipOk {
        parts[i] := parts[i].(index := i);
        assert parts[..] == old(parts[..])[i := parts[i]];
        return true;
      }
      var (port, portOk) := ParseString(line, PartKey(i, "port"), PORT_BUFFER, parts[i].port);
      parts[i] := parts[i].(port := port);
      if portOk {
        parts[i] := parts[i].(index := i);
      }
      assert parts[..] == old(parts[..])[i := parts[i]];
      return portOk;
    }

    method ReadMetaLine(line: string)
      requires parts.Length == MAX_SOURCES
      modifies this, parts
      ensures State() == ApplyLine(old(State()), line)
    {
      hide PartStep, ParseString, Atoll;
      var (name, nameOk) := ParseString(line, "file_name=", NAME_BUFFER, fileName);
      fileName := name;
      if nameOk {
        return;
      }
      var (hash, hashOk) := ParseString(line, "file_hash=", HASH_BUFFER, fileHash);
      fileHash := hash;
      if hashOk {
        return;
      }
      if "file_size=" <= line {
        fileSize := Atoll(line[|"file_size="|..]);
        return;
      }
      if "part_count=" <= line {
        partCount := Atoll(line[|"part_count="|..]);
        return;
      }
      ghost var m1 := State();
      var i := 0;
      while i < MAX_SOURCES
        invariant 0 <= i <= MAX_SOURCES
        invariant ApplyPartLine(State(), line, i) == ApplyPartLine(m1, line, 0)
      {
        var consumed := ReadPartField(line, i);
        if consumed {
          return;
        }
        i := i + 1;
      }
    }

    // load_meta_file: line by line, fgets taking at most 255 characters at a time.
    method LoadMetaFile(dir: TaskDir) returns (ok: bool)
      requires parts.Length == MAX_SOURCES
      modifies this, parts
      ensures ok == dir.ini.Some?
      ensures State() == if dir.ini.Some? then LoadText(old(State()), dir.ini.value) else old(State())
    {
      hide ApplyLine;
      if dir.ini == None {
        return false;
      }
      var text := dir.ini.value;
      while text != ""
        invariant dir.ini.Some? && LoadText(State(), text) == LoadText(old(State()), dir.ini.value)
        decreases |text|
      {
        var n := LineLength(text, LINE_BUFFER);
        ReadMetaLine(text[..n]);
        text := text[n..];
      }
      return true;
    }

    // sync_finished_bytes_from_part_files
    method SyncFinishedBytes(dir: TaskDir)
      requires 0 <= partCount <= parts.Length
      modifies parts
      ensures State() == Synced(old(State()), dir.files)
    {
      for i := 0 to partCount
        invariant forall j :: 0 <= j < i ==>
                    parts[j] == old(parts[j]).(finished := FinishedBytes(old(parts[j]), dir.files, j))
        invariant forall j :: i <= j < parts.Length ==> parts[j] == old(parts[j])
      {
        var finished := 0;
        if i in dir.files {
          var partTotalSize := parts[i].end - parts[i].start + 1;
          finished := if |dir.files[i]| < partTotalSize then |dir.files[i]| else partTotalSize;
        }
        parts[i] := parts[i].(finished := finished);
      }
      assert parts[..] == Synced(old(State()), dir.files).parts;
    }

    method SyncProgress(dir: TaskDir)
      requires 0 <= partCount <= parts.Length
      modifies parts, dir`ini
      ensures State() == Synced(old(State()), dir.files) && dir.ini == Some(MetaText(State()))
      ensures parts.Length == MAX_SOURCES ==>
                Client(TaskDisk(dir.ini, dir.files), Some(State())) ==
                PartDownload.Next(Client(old(TaskDisk(dir.ini, dir.files)), Some(old(State()))), Sync, [])
    {
      hide Synced, MetaText;
      SyncFinishedBytes(dir);
      SaveMetaFile(dir);
    }

    // is_meta_compatible
    method IsMetaCompatible(plan: Plan) returns (r: bool)
      requires parts.Length == MAX_SOURCES
      ensures r == Compatible(State(), plan)
    {
      if fileName != plan.fileName || fileHash != plan.fileHash || fileSize != plan.fileSize {
        return false;
      }
      if partCount <= 0 || partCount > MAX_SOURCES || partCount != |plan.sources| {
        return false;
      }
      for i := 0 to partCount
        invariant forall j :: 0 <= j < i ==> parts[j].ip == plan.sources[j].ip && parts[j].port == plan.sources[j].port
      {
        if parts[i].ip != plan.sources[i].ip || parts[i].port != plan.sources[i].port {
          return false;
        }
      }
      return true;
    }

    // multipart_task_prepare: the saved task is taken over or rebuilt, and saved again.
    method TaskPrepare(dir: TaskDir, plan: Plan) returns (ok: bool)
      requires parts.Length == MAX_SOURCES
      modifies this, parts, dir`ini
      ensures match Prepare(old(TaskDisk(dir.ini, dir.files)), plan)
              case Some(m) => ok && State() == m && dir.ini == Some(MetaText(m))
              case None => !ok && dir.ini == old(dir.ini)
      ensures ok ==> fileName == plan.fileName && fileHash == plan.fileHash && fileSize == plan.fileSize
                     && partCount == |plan.sources| <= parts.Length
                     && forall i :: 0 <= i < partCount ==>
                          parts[i].ip == plan.sources[i].ip && parts[i].port == plan.sources[i].port
    {
      hide Synced, MetaText, LoadText, Compatible, FreshParts;
      PreparedFollowsPlan(TaskDisk(dir.ini, dir.files), plan);
      Clear();
      if dir.ini.Some? {
        var loaded := LoadMetaFile(dir);
        var compatible := IsMetaCompatible(plan);
        if loaded && compatible {
          CompatibleCount(State(), plan);
          SyncProgress(dir);
          return true;
        }
      }
      Clear();
      fileName, fileHash, fileSize := plan.fileName, plan.fileHash, plan.fileSize;
      ok := InitPartsFromPlan(plan);
      if ok {
        SaveMetaFile(dir);
      }
    }

    // The first half of gets: prepare, then refresh. Together they are one Start event.
    method StartGets(dir: TaskDir, plan: Plan) returns (ok: bool)
      requires parts.Length == MAX_SOURCES
      modifies this, parts, dir`ini
      ensures ok ==> Client(TaskDisk(dir.ini, dir.files), Some(State())) ==
                     PartDownload.Next(Client(old(TaskDisk(dir.ini, dir.files)), None), Start(plan), [])
      ensures ok == Prepare(old(TaskDisk(dir.ini, dir.files)), plan).Some?
      ensures plan.fileSize >= 0 && 0 < |plan.sources| <= MAX_SOURCES ==> ok
      ensures ok ==> fileName == plan.fileName && fileHash == plan.fileHash && fileSize == plan.fileSize
                     && partCount == |plan.sources| <= parts.Length
                     && forall i :: 0 <= i < partCount ==>
                          parts[i].ip == plan.sources[i].ip && parts[i].port == plan.sources[i].port
    {
      hide Synced, MetaText, Prepare;
      PreparedFollowsPlan(TaskDisk(dir.ini, dir.files), plan);
      ok := TaskPrepare(dir, plan);
      if ok {
        SyncedAddresses(State(), dir.files);
        SyncProgress(dir);
        assert parts[..] == State().parts;
      }
    }

    method AllPartsFinished() returns (r: bool)
      requires 0 <= partCount <= parts.Length
      ensures r == AllFinished(State())
    {
      for i := 0 to partCount
        invariant forall j :: 0 <= j < i ==> PartFinished(parts[j])
      {
        if !PartFinished(parts[i]) {
          return false;
        }
      }
      return true;
    }

    // merge_part_files: the final file, or nothing when a part file cannot be opened.
    method MergePartFiles(dir: TaskDir) returns (merged: Option<Bytes>)
      requires 0 <= partCount
      ensures merged == Merged(dir.files, partCount)
    {
      var out := new DiskFile([]);
      for i := 0 to partCount
        invariant Merged(dir.files, i) == Some(out.data) && out.pos == |out.data|
      {
        if i !in dir.files {
          MergeNeeds(dir.files, partCount, i);
          return None;
        }
        var part, nread := dir.files[i], 0;
        ghost var before := out.data;
        while nread < |part|
          invariant 0 <= nread <= |part| && out.pos == |out.data| && out.data == before + part[..nread]
        {
          var n: nat :| 0 < n <= |part| - nread && n <= BUFFER_SIZE;
          out.WriteFull(part[nread..nread + n]);
          nread := nread + n;
        }
        assert part[..nread] == part;
      }
      return Some(out.data);
    }

    // multipart_task_cleanup
    method CleanupTask(dir: TaskDir)
      requires 0 <= partCount
      modifies dir
      ensures TaskDisk(dir.ini, dir.files) == CleanedUp(old(TaskDisk(dir.ini, dir.files)), partCount)
    {
      dir.ini := None;
      var i := 0;
      while i < partCount
        invariant 0 <= i <= partCount
        invariant TaskDisk(dir.ini, dir.files) == CleanedUp(old(TaskDisk(dir.ini, dir.files)), i)
      {
        dir.files := dir.files - {i};
        i := i + 1;
      }
    }

    // The second half of gets, when all transfers of this round have ended: refresh, merge if
    // everything is there, check the hash, clean up. On any failure the parts are kept. The
    // whole is one Finish event.
    method FinishGets(dir: TaskDir, hashOf: Bytes -> string) returns (file: Option<Bytes>)
      requires 0 <= partCount <= parts.Length == MAX_SOURCES
      modifies parts, dir
      ensures State() == Synced(old(State()), old(dir.files))
      ensures var merged := Merged(old(dir.files), partCount);
              var hashOk := merged.Some? && hashOf(merged.value) == fileHash;
              && file == (if AllFinished(State()) && hashOk then merged else None)
              && Client(TaskDisk(dir.ini, dir.files), None) ==
                 PartDownload.Next(Client(old(TaskDisk(dir.ini, dir.files)), Some(old(State()))),
                                   Finish(hashOk, partCount), [])
      ensures file == None ==> dir.files == old(dir.files) && dir.ini == Some(MetaText(State()))
      ensures forall blob: Bytes, n: nat ::
                && RangesOk(old(State()), fileHash, blob, n) && n <= |blob| && hashOf(blob) == fileHash
                && (forall i :: 0 <= i < n ==> i in old(dir.files) && old(dir.files)[i] == Slice(blob, n, i)) ==>
                  file == Some(blob)
    {
      hide MetaText, Synced, Merged, RangesOk, Slice;
      forall blob: Bytes, n: nat |
        && RangesOk(State(), fileHash, blob, n) && n <= |blob|
        && (forall i :: 0 <= i < n ==> i in dir.files && dir.files[i] == Slice(blob, n, i))
        ensures partCount == n && AllFinished(Synced(State(), dir.files)) && Merged(dir.files, n) == Some(blob)
      {
        RangesAreShaped(State(), fileHash, blob, n);
        WholePartsFinish(State(), dir.files, fileHash, blob, n);
      }
      SyncProgress(dir);
      var finished := AllPartsFinished();
      if !finished {
        return None;
      }
      var merged := MergePartFiles(dir);
      if merged == None || hashOf(merged.value) != fileHash {
        return None;
      }
      CleanupTask(dir);
      return merged;
    }
  }

  lemma SyncedAddresses(m: TaskMeta, files: map<int, Bytes>)
    requires 0 <= m.partCount <= |m.parts|
    ensures var r := Synced(m, files);
            && r.fileName == m.fileName && r.fileHash == m.fileHash && r.fileSize == m.fileSize
            && r.partCount == m.partCount
            && forall i :: 0 <= i < m.partCount ==>
                 r.parts[i].ip == m.parts[i].ip && r.parts[i].port == m.parts[i].port
  {
  }

  lemma CompatibleCount(m: TaskMeta, plan: Plan)
    requires Compatible(m, plan)
    ensures 0 < m.partCount <= |m.parts|
  {
  }

  // Of `len` missing bytes, the ones that blocks of BUFFER_SIZE (and a last shorter one)
  // bring in when the connection ends.
  function WholeBlocks(arriving: Bytes, len: nat): Bytes
  {
    if |arriving| >= len then arriving[..len] else arriving[..|arriving| - |arriving| % BUFFER_SIZE]
  }

  // A connection that ends early costs less than a block of what it brought in.
  lemma LessThanABlockIsLost(arriving: Bytes, len: nat)
    ensures var got := WholeBlocks(arriving, len);
            && got <= arriving
            && if |arriving| >= len then |got| == len
               else |arriving| - 4096 < |got| <= |arriving| && |got| % 4096 == 0
  {
  }

  // The connection ends within the block behind `done`, or after everything came in.
  lemma CutAtBlock(arriving: Bytes, len: nat, done: nat)
    requires done <= |arriving| && done <= len && (done < len ==> done % BUFFER_SIZE == 0)
    requires |arriving| < done + BUFFER_SIZE || done == len
    ensures |arriving| < len && done < len ==> WholeBlocks(arriving, len) == arriving[..done]
    ensures done == len ==> WholeBlocks(arriving, len) == arriving[..done]
  {
  }

  lemma NextBlock(before: Bytes, arriving: Bytes, done: nat, once: nat)
    requires done + once <= |arriving|
    ensures before + arriving[..done] + arriving[done..][..once] == before + arriving[..done + once]
    ensures arriving[done..][once..] == arriving[done + once..]
    ensures done % BUFFER_SIZE == 0 && once == BUFFER_SIZE ==> (done + once) % BUFFER_SIZE == 0
  {
    assert arriving[..done + once] == arriving[..done] + arriving[done..][..once];
    assert before + (arriving[..done] + arriving[done..][..once]) == before + arriving[..done + once];
  }

  // The receiving loop: the file grows by whole blocks; a block that does not come in
  // completely is not written.
  method ReceivePart(file: DiskFile, len: nat, sock: Incoming) returns (complete: bool)
    requires file.pos == |file.data|
    modifies file, sock
    ensures file.data == old(file.data) + WholeBlocks(old(sock.arriving), len)
    ensures complete == (|old(sock.arriving)| >= len)
    ensures sock.arriving == Unread(old(sock.arriving), len)
  {
    hide WholeBlocks;
    var remaining := len;
    ghost var before, arriving := file.data, sock.arriving;
    while remaining > 0
      invariant 0 <= remaining <= len && file.pos == |file.data|
      invariant len - remaining <= |arriving| && sock.arriving == arriving[len - remaining..]
      invariant file.data == before + arriving[..len - remaining]
      invariant remaining > 0 ==> (len - remaining) % BUFFER_SIZE == 0
    {
      var once := if remaining < BUFFER_SIZE then remaining else BUFFER_SIZE;
      var ok, buf := sock.RecvFull(once);
      if !ok {
        CutAtBlock(arriving, len, len - remaining);
        return false;
      }
      NextBlock(before, arriving, len - remaining, once);
      file.Append(buf);
      remaining := remaining - once;
    }
    CutAtBlock(arriving, len, len);
    return true;
  }

  lemma NothingTaken(arriving: Bytes)
    ensures Unread(arriving, 0) == arriving
  {
  }

  // run_gets_part_transfer once the server has announced the size of the range.
  method RunGetsPartTransfer(dir: TaskDir, i: nat, total: nat, sock: Incoming) returns (complete: bool, offset: nat)
    modifies dir`files, sock
    ensures var local := if i in old(dir.files) then old(dir.files)[i] else [];
            && offset == RequestOffset(|local|, total)
            && dir.files == (if offset == total then old(dir.files)
                             else var got := WholeBlocks(old(sock.arriving), total - offset);
                                  old(dir.files)[i := local[..offset] + got])
            && complete == (offset == total || |old(sock.arriving)| >= total - offset)
            && sock.arriving == Unread(old(sock.arriving), GetsWaitsFor(|local|, total))
  {
    hide WholeBlocks, Unread;
    var localSize := if i in dir.files then |dir.files[i]| else 0;
    offset := if localSize < total then localSize else if localSize == total then total else 0;
    if offset == total {
      NothingTaken(sock.arriving);
      return true, offset;
    }
    var file := new DiskFile(if i in dir.files then dir.files[i] else []);
    if offset == 0 {
      file.Truncate(0);
    }
    file.pos := offset;
    ghost var local := if i in dir.files then dir.files[i] else [];
    assert file.data == local[..offset];
    complete := ReceivePart(file, total - offset, sock);
    dir.files := dir.files[i := file.data];
  }

  // When the server sends its range from the agreed offset, the transfer is a Fetch event.
  lemma TransferIsFetch(range: Bytes, local: Option<Bytes>, arriving: Bytes)
    requires var have := if local.Some? then local.value else [];
             arriving <= range[RequestOffset(|have|, |range|)..]
    ensures var have := if local.Some? then local.value else [];
            var offset := RequestOffset(|have|, |range|);
            var got := WholeBlocks(arriving, |range| - offset);
            offset < |range| ==> Some(have[..offset] + got) == Fetched(range, local, |got|)
  {
    var have := if local.Some? then local.value else [];
    var rest := range[RequestOffset(|have|, |range|)..];
    var got := WholeBlocks(arriving, |rest|);
    assert got == rest[..|got|];
    assert |got| == |rest| ==> got == rest;
  }

  lemma Concat3(a: string, b: string, c: string)
    ensures a + b + c == a + (b + c)
  {
  }

  lemma Concat5(a: string, b: string, c: string, d: string, e: string)
    ensures a + b + c + d + e == a + (b + (c + (d + e)))
  {
  }
}
