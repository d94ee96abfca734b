// Both ends of a transfer connection: how many bytes one side sends after the size and
// offset exchange, and how many the other side waits for.
module FileTransfer {
  import opened Wrappers
  import opened VirtualPath
  import opened Tables
  import opened Commands
  import opened StoreInvariants
  import opened StoreSteps
  import opened SocketIo
  import opened RangeSplit
  import opened PartDownload
  import opened MultipartTask
  import opened StorageServer

  const LARGE_FILE_MMAP_THRESHOLD: nat := 100 * 1024 * 1024

  // ---------------------------------------------------------------- download

  // The bytes a ticket allows: a range (end included) when it carries one, else everything.
  // A range outside the file is refused.
  function Allowed(blob: Bytes, start: int, end: int): Option<Bytes>
  {
    if end >= start && end >= 0 then
      if RangeAccepted(start, end, |blob|) then Some(blob[start..end + 1]) else None
    else Some(blob)
  }

  // handle_gets and handle_gets_range as dispatched by handle_transfer_request. The client
  // answers the announced size with an offset; `announced` is None for a refusal.
  method HandleGets(disk: NetDisk, ctx: ClientContext, arg: string, start: int, end: int,
                    clientOffset: int, sock: Outgoing) returns (announced: Option<nat>, ok: bool)
    modifies sock
    ensures match Download(disk.State(), ctx.userId, ctx.State(), arg)
            case None => announced == None && sock.sent == old(sock.sent)
            case Some(blob) =>
              match Allowed(blob, start, end)
              case None => announced == None && sock.sent == old(sock.sent)
              case Some(part) =>
                && announced == Some(|part|)
                && var rest := part[ServedOffset(clientOffset, |part|)..];
                   && sock.sent == old(sock.sent) + Carried(rest, old(sock.capacity))
                   && ok == (|rest| <= old(sock.capacity))
  {
    hide Download, Carried;
    var found := Download(disk.State(), ctx.userId, ctx.State(), arg);
    if found == None {
      return None, false;
    }
    var blob := found.value;
    var effectiveStart, effectiveEnd := 0, |blob| - 1;
    if end >= start && end >= 0 {
      if start < 0 || end < start || end >= |blob| {
        return None, false;
      }
      effectiveStart, effectiveEnd := start, end;
    }
    announced := Some(effectiveEnd - effectiveStart + 1);
    assert blob[0..|blob|] == blob;
    assert Allowed(blob, start, end) == Some(blob[effectiveStart..effectiveEnd + 1]);
    ok := SendRange(blob, effectiveStart, effectiveEnd, clientOffset, sock);
  }

  // The sending half: [start..end] of the blob from the client's offset on; an offset that
  // makes no sense means from the beginning.
  method SendRange(blob: Bytes, start: nat, end: int, clientOffset: int, sock: Outgoing) returns (ok: bool)
    requires start <= end + 1 <= |blob|
    modifies sock
    ensures var part := blob[start..end + 1];
            var rest := part[ServedOffset(clientOffset, |part|)..];
            sock.sent == old(sock.sent) + Carried(rest, old(sock.capacity)) && ok == (|rest| <= old(sock.capacity))
  {
    hide Carried;
    var logicalTotalSize := end - start + 1;
    var offset := if clientOffset < 0 || clientOffset > logicalTotalSize then 0 else clientOffset;
    assert blob[start..end + 1][offset..] == blob[start + offset..end + 1];
    offset := offset + start;
    if logicalTotalSize > LARGE_FILE_MMAP_THRESHOLD {
      ok := SendFileByMmap(sock, blob, offset, end + 1);
    } else {
      ok := SendFileBySendfile(sock, blob, offset, end + 1);
    }
  }

  // A ticket with a range is refused exactly when the range leaves the file; one without, as
  // whole uploads and downloads carry it (0 to -1), allows everything.
  lemma WhatIsAllowed(blob: Bytes, start: int, end: int, clientOffset: int)
    ensures Allowed(blob, start, end) == None <==> start <= end && 0 <= end && (start < 0 || end >= |blob|)
    ensures end < start || end < 0 ==> Allowed(blob, start, end) == Some(blob)
    ensures 0 <= start <= end < |blob| ==> Allowed(blob, start, end) == Some(blob[start..end + 1])
    ensures Allowed(blob, 0, -1) == Some(blob)
    ensures ServedOffset(clientOffset, |blob|) == if 0 <= clientOffset <= |blob| then clientOffset else 0
  {
  }

  // Whatever is on the client's disk, the two sides agree on the offset and on the count.
  lemma DownloadHandshakeAgrees(part: Bytes, local: nat)
    ensures var asked := RequestOffset(local, |part|);
            ServedOffset(asked, |part|) == asked && |part[ServedOffset(asked, |part|)..]| == GetsWaitsFor(local, |part|)
  {
  }

  // Server loop, wire and client loop together: over a connection that carries `capacity`
  // bytes, the part file becomes what a Fetch event says, the missing bytes arrive completely
  // if, and only if, the connection carries them, and nothing sent is left unread.
  method TransferPart(disk: NetDisk, ctx: ClientContext, arg: string, start: int, end: int,
                      dir: TaskDir, i: nat, capacity: nat, interrupts: nat)
    returns (complete: bool, unread: Bytes, ghost kept: nat)
    requires Download(disk.State(), ctx.userId, ctx.State(), arg).Some?
    requires RangeAccepted(start, end, |Download(disk.State(), ctx.userId, ctx.State(), arg).value|)
    modifies dir`files
    ensures var range := Download(disk.State(), ctx.userId, ctx.State(), arg).value[start..end + 1];
            var local := if i in old(dir.files) then Some(old(dir.files)[i]) else None;
            && Fetched(range, local, kept).Some?
            && dir.files == old(dir.files)[i := Fetched(range, local, kept).value]
            && var asked := RequestOffset(if local.Some? then |local.value| else 0, |range|);
               && kept == |WholeBlocks(Carried(range[asked..], capacity), |range| - asked)|
               && complete == (capacity >= |range| - asked) && unread == []
  {
    hide Download, Fetched, Carried, WholeBlocks, ServedOffset, Unread;
    var wire := new Outgoing(capacity, interrupts);
    var total := end - start + 1;
    var localSize := if i in dir.files then |dir.files[i]| else 0;
    var clientOffset := RequestOffset(localSize, total);
    ghost var range := Download(disk.State(), ctx.userId, ctx.State(), arg).value[start..end + 1];
    ghost var local := if i in dir.files then Some(dir.files[i]) else None;
    CarriedIsFetched(range, local, capacity);
    var announced, sentAll := HandleGets(disk, ctx, arg, start, end, clientOffset, wire);
    var sock := new Incoming(wire.sent);
    assert wire.sent == Carried(range[clientOffset..], capacity);
    var offset;
    complete, offset := RunGetsPartTransfer(dir, i, total, sock);
    kept := |WholeBlocks(wire.sent, total - offset)|;
    NothingUnread(range[clientOffset..], capacity, total - offset);
    unread := sock.arriving;
  }

  lemma NothingUnread(data: Bytes, capacity: nat, wanted: nat)
    requires |data| <= wanted
    ensures Unread(Carried(data, capacity), wanted) == []
  {
  }

  // What a connection of the given capacity carries, in terms of a Fetch event.
  lemma CarriedIsFetched(range: Bytes, local: Option<Bytes>, capacity: nat)
    ensures var have := if local.Some? then local.value else [];
            var offset := RequestOffset(|have|, |range|);
            var arriving := Carried(range[offset..], capacity);
            var got := WholeBlocks(arriving, |range| - offset);
            && ServedOffset(offset, |range|) == offset
            && Fetched(range, local, |got|) == (if offset == |range| then local else Some(have[..offset] + got))
            && (|arriving| >= |range| - offset <==> capacity >= |range| - offset)
  {
    var have := if local.Some? then local.value else [];
    var offset := RequestOffset(|have|, |range|);
    var arriving := Carried(range[offset..], capacity);
    assert arriving <= range[offset..];
    TransferIsFetch(range, local, arriving);
  }

  // ---------------------------------------------------------------- upload

  // The content that run_puts_transfer sends after the server's answer.
  function PutsSends(file: Bytes, hash: string, answer: PutsAnswer): Bytes
  {
    match answer
    case NoPacket => []
    case Packet(offset, answered) =>
      if answered == hash then [] else file[if offset > |file| then 0 else offset..]
  }

  // run_puts_transfer from the server's answer on.
  method RunPutsTransfer(file: Bytes, hash: string, answer: PutsAnswer, sock: Outgoing) returns (ok: bool)
    modifies sock
    ensures sock.sent == old(sock.sent) + Carried(PutsSends(file, hash, answer), old(sock.capacity))
    ensures ok == (answer.Packet? && |PutsSends(file, hash, answer)| <= old(sock.capacity))
  {
    if answer.NoPacket? {
      return false;
    }
    if answer.hash == hash {
      return true;
    }
    var offset := if answer.offset > |file| then 0 else answer.offset;
    var remaining := |file| - offset;
    ok := true;
    if remaining > 0 {
      if |file| > LARGE_FILE_MMAP_THRESHOLD {
        ok := SendFileByMmap(sock, file, offset, |file|);
        assert file[offset..|file|] == file[offset..];
      } else {
        ok := SendFileByReadLoop(sock, file, offset);
      }
    }
  }

  // In every state of the server, refusals and instant uploads included, the client sends as
  // many bytes as the server takes off the connection.
  lemma UploadHandshakeAgrees(db: Db, user: int, s: Session, arg: string, hash: string, file: Bytes)
    ensures |PutsSends(file, hash, AnswerPuts(db, user, s, arg, |file|, hash))| ==
            PutsWaitsFor(db, user, s, arg, |file|, hash)
  {
  }

  // Client loop, wire and server loop together: the tables become what puts specifies for
  // the bytes the connection carries, both sides are done if, and only if, it carries what
  // was missing, and nothing sent is left unread.
  method TransferUpload(disk: NetDisk, ctx: ClientContext, arg: string, hash: string, file: Bytes,
                        registered: bool, capacity: nat, interrupts: nat)
    returns (ok: bool, sentAll: bool, receivedAll: bool, unread: Bytes)
    requires IdsOk(disk.State())
    modifies disk
    ensures var answer := AnswerPuts(old(disk.State()), ctx.userId, ctx.State(), arg, |file|, hash);
            var stream := Carried(PutsSends(file, hash, answer), capacity);
            var cmd := Puts(arg, |file|, hash, stream, registered);
            && Outcome(disk.State(), ctx.State(), ok) == ExecPuts(old(disk.State()), ctx.userId, ctx.State(), cmd)
            && sentAll == (answer.Packet? && receivedAll)
    ensures var missing := PutsWaitsFor(old(disk.State()), ctx.userId, ctx.State(), arg, |file|, hash);
            receivedAll == (capacity >= missing) && unread == []
  {
    hide Opened, Received, FinishUpload, PutsSends, Carried, Unread, IdsOk;
    var answer, blob, target, name;
    UploadHandshakeAgrees(disk.State(), ctx.userId, ctx.State(), arg, hash, file);
    answer, ok, blob, target, name := disk.OpenPuts(ctx, arg, |file|, hash);
    var wire := new Outgoing(capacity, interrupts);
    sentAll := RunPutsTransfer(file, hash, answer, wire);
    var sock := new Incoming(wire.sent);
    ghost var data := PutsSends(file, hash, answer);
    assert wire.sent == Carried(data, capacity);
    NothingUnread(data, capacity, |data|);
    CarriedWhole(data, capacity);
    receivedAll := true;
    if blob != null {
      ok, receivedAll := disk.ReceiveAndFinish(ctx, target, name, blob, |file|, hash, registered, sock);
    }
    unread := sock.arriving;
  }

  lemma CarriedWhole(data: Bytes, capacity: nat)
    ensures |Carried(data, capacity)| >= |data| <==> capacity >= |data|
    ensures data == [] ==> Carried(data, capacity) == []
  {
  }

  // A client that follows the protocol is the honest sender that the store relies on, no
  // matter when its connection ends.
  lemma FollowingClientIsHonest(db: Db, content: Content, user: int, s: Session, cmd: Command, capacity: nat)
    requires cmd.Puts? && StoreOk(db, content) && Target(s, cmd).Some?
    requires cmd.size == |content(cmd.hash)|
    requires var answer := AnswerPuts(db, user, s, cmd.arg, cmd.size, cmd.hash);
             cmd.stream == Carried(PutsSends(content(cmd.hash), cmd.hash, answer), capacity)
    ensures Honest(db, cmd, content)
  {
  }

  // So an upload of content that the server awaits succeeds if, and only if, the connection
  // carries what is missing and the server can register itself as a source.
  lemma UploadSucceedsIff(db: Db, content: Content, user: int, s: Session, cmd: Command, capacity: nat)
    requires cmd.Puts? && StoreOk(db, content) && SessionOk(db, user, s) && cmd.size == |content(cmd.hash)|
    requires Opened(db, user, s, cmd.arg, cmd.size, cmd.hash).Awaiting? && |Join(s.path, cmd.arg)| <= MAX_PATH_COLUMN
    requires var answer := AnswerPuts(db, user, s, cmd.arg, cmd.size, cmd.hash);
             cmd.stream == Carried(PutsSends(content(cmd.hash), cmd.hash, answer), capacity)
    ensures ExecPuts(db, user, s, cmd).ok <==>
            capacity >= PutsWaitsFor(db, user, s, cmd.arg, cmd.size, cmd.hash) && cmd.registered
  {
    hide StoreOk, SessionOk, Upload, LastName, HasDotDot;
    var sure := cmd.(registered := true);
    FollowingClientIsHonest(db, content, user, s, cmd, capacity);
    SessionPathNonEmpty(db, content, user, s);
    TransferTarget(s, cmd);
    OpenedStep(db, content, user, s, sure);
    var name := LastName(Join(s.path, cmd.arg));
    UploadStep(db, content, Key(user, Join(s.path, cmd.arg)), s, name, cmd);
  }
}
