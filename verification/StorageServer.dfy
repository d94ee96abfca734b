// The command handlers as they run: data-access calls on the tables, one after the other,
// files on disk, a context that cd updates in place. Each is proved to do what Commands says.
module StorageServer {
  import opened Wrappers
  import opened VirtualPath
  import opened Tables
  import opened Commands
  import opened StoreInvariants
  import opened SocketIo

  class ClientContext {
    const userId: int
    var currentPath: string
    var currentDirId: int

    constructor (userId: int)
      ensures this.userId == userId && State() == Session("/", 0)
    {
      this.userId := userId;
      currentPath, currentDirId := "/", 0;
    }

    function State(): Session
      reads this
    {
      Session(currentPath, currentDirId)
    }
  }

  class NetDisk {
    var paths: map<Key, PathRow>
    var files: map<int, FileRow>
    var blobs: map<string, Bytes>
    var nextNode: int
    var nextFile: int

    constructor ()
      ensures State() == Db(map[], map[], map[], 1, 1)
    {
      paths, files, blobs, nextNode, nextFile := map[], map[], map[], 1, 1;
    }

    function State(): Db
      reads this
    {
      Db(paths, files, blobs, nextNode, nextFile)
    }

    // ---------------------------------------------------------------- data access

    // The new row has an id of its own, and no other path is touched.
    method DaoCreateNode(k: Key, fileId: Option<int>, parentId: int, name: string, isDir: bool) returns (ok: bool)
      modifies this`paths, this`nextNode
      ensures match InsertNode(old(State()), k, fileId, parentId, name, isDir)
              case None => !ok && State() == old(State())
              case Some(db) => ok && State() == db
      ensures IdsOk(old(State())) ==> IdsOk(State())
      ensures ok ==> k !in old(paths) && k in paths
                     && forall f :: Refs(paths, f) - Refs(old(paths), f) == if fileId == Some(f) then {k} else {}
      ensures IdsOk(old(State())) && ok ==>
                forall l :: l in old(paths) ==> l in paths && paths[l] == old(paths)[l] && paths[l].id != paths[k].id
    {
      if k in paths || |k.path| > MAX_PATH_COLUMN || |name| > MAX_VFS_NAME_LEN {
        return false;
      }
      paths := paths[k := PathRow(nextNode, fileId, parentId, name, isDir)];
      nextNode := nextNode + 1;
      return true;
    }

    // Ids are unique: one row goes, or none.
    method DaoDeleteNode(user: int, id: int)
      requires IdsOk(State())
      modifies this`paths
      ensures IdsOk(State())
      ensures forall k :: k in old(paths) && k.user == user && old(paths)[k].id == id ==> paths == old(paths) - {k}
      ensures (forall k :: k in old(paths) && k.user == user ==> old(paths)[k].id != id) ==> paths == old(paths)
    {
      ghost var before := paths;
      paths := map k | k in paths && !(k.user == user && paths[k].id == id) :: paths[k];
      forall k | k in before && k.user == user && before[k].id == id
        ensures paths == before - {k}
      {
        assert forall l :: l in before && before[l].id == id ==> l == k;
      }
    }

    method DaoFileFindBySha256(sha: string) returns (r: Option<int>)
      requires IdsOk(State())
      ensures r == FindSha(State(), sha)
    {
      if id :| id in files && files[id].sha == sha {
        return Some(id);
      }
      return None;
    }

    method DaoFileInsert(sha: string, size: nat) returns (r: Option<int>)
      requires IdsOk(State())
      modifies this`files, this`nextFile
      ensures match FindSha(old(State()), sha)
              case Some(_) => r == None && State() == old(State())
              case None => r == Some(old(nextFile)) && State() == InsertFile(old(State()), sha, size)
      ensures IdsOk(State())
    {
      if id :| id in files && files[id].sha == sha {
        return None;
      }
      files, nextFile, r := files[nextFile := FileRow(sha, size, 1)], nextFile + 1, Some(nextFile);
    }

    method DaoFileAddRefCount(f: int)
      modifies this`files
      ensures State() == AddRef(old(State()), f)
      ensures f in old(files) && old(files)[f].count > 0 ==> Release(State(), f) == old(State())
      ensures IdsOk(old(State())) ==> IdsOk(State())
    {
      if f in files {
        files := files[f := files[f].(count := files[f].count + 1)];
      }
    }

    // The reference taken away can be given back; a count of zero stays zero.
    method DaoFileSubRefCount(f: int)
      modifies this`files
      ensures if f in old(files) && old(files)[f].count > 0 then AddRef(State(), f) == old(State())
              else files == old(files)
      ensures IdsOk(old(State())) ==> IdsOk(State())
    {
      if f in files && files[f].count > 0 {
        files := files[f := files[f].(count := files[f].count - 1)];
      }
    }

    // ---------------------------------------------------------------- commands

    method HandleCd(ctx: ClientContext, arg: string) returns (ok: bool)
      modifies ctx
      ensures Outcome(State(), ctx.State(), ok) == ExecCd(old(State()), ctx.userId, old(ctx.State()), arg)
    {
      if arg == "" {
        return false;
      }
      var target;
      if arg == ".." {
        target := ParentPath(ctx.currentPath);
      } else if arg == "." {
        return true;
      } else {
        target := BuildAbsPath(ctx.currentPath, arg);
      }
      var node := GetNode(State(), Key(ctx.userId, target));
      if node == None || !node.value.1 {
        return false;
      }
      ctx.currentPath := target;
      ctx.currentDirId := node.value.0;
      return true;
    }

    method HandleMkdir(ctx: ClientContext, arg: string) returns (ok: bool)
      modifies this
      ensures Outcome(State(), ctx.State(), ok) == ExecMkdir(old(State()), ctx.userId, old(ctx.State()), arg)
    {
      if arg == "" {
        return false;
      }
      var target := BuildAbsPath(ctx.currentPath, arg);
      var name := LastName(target);
      if !ValidName(name) {
        return false;
      }
      if GetNode(State(), Key(ctx.userId, target)).Some? {
        return false;
      }
      ok := DaoCreateNode(Key(ctx.userId, target), None, ctx.currentDirId, name, true);
    }

    // create_user_file_link
    method CreateUserFileLink(ctx: ClientContext, target: string, name: string, f: int, addRef: bool) returns (ok: bool)
      modifies this
      ensures match LinkFile(old(State()), Key(ctx.userId, target), ctx.State(), name, f, addRef)
              case None => !ok && State() == old(State())
              case Some(db) => ok && State() == db
    {
      ok := DaoCreateNode(Key(ctx.userId, target), Some(f), ctx.currentDirId, name, false);
      if ok && addRef {
        DaoFileAddRefCount(f);
      }
    }

    method DaoFileDelete(f: int)
      modifies this`files
      ensures files == old(files) - {f}
    {
      files := files - {f};
    }

    // create_empty_file_node
    method CreateEmptyFileNode(ctx: ClientContext, target: string, name: string) returns (ok: bool)
      requires IdsOk(State())
      modifies this
      ensures (State(), ok) == LinkEmptyFile(WithEmptyBlob(old(State())), Key(ctx.userId, target), ctx.State(), name)
    {
      hide InsertNode;
      if EMPTY_SHA !in blobs {
        blobs := blobs[EMPTY_SHA := []];
      }
      var found := DaoFileFindBySha256(EMPTY_SHA);
      if found.Some? {
        ok := CreateUserFileLink(ctx, target, name, found.value, true);
      } else {
        ok := CreateFirstEmptyFileNode(ctx, target, name);
      }
    }

    // Its last step: the file row is inserted, and taken back if it was for nothing.
    method CreateFirstEmptyFileNode(ctx: ClientContext, target: string, name: string) returns (ok: bool)
      requires IdsOk(State()) && FindSha(State(), EMPTY_SHA) == None
      modifies this
      ensures (State(), ok) == LinkEmptyFile(old(State()), Key(ctx.userId, target), ctx.State(), name)
    {
      hide InsertNode;
      ghost var before := files;
      assert nextFile !in files;
      var inserted := DaoFileInsert(EMPTY_SHA, 0);
      ok := CreateUserFileLink(ctx, target, name, inserted.value, false);
      if !ok {
        DaoFileDelete(inserted.value);
        assert files == before;
      }
    }

    method HandleTouch(ctx: ClientContext, arg: string) returns (ok: bool)
      requires IdsOk(State())
      modifies this
      ensures Outcome(State(), ctx.State(), ok) == ExecTouch(old(State()), ctx.userId, old(ctx.State()), arg)
    {
      if arg == "" {
        return false;
      }
      var target := BuildAbsPath(ctx.currentPath, arg);
      var name := LastName(target);
      if !ValidName(name) {
        return false;
      }
      if GetNode(State(), Key(ctx.userId, target)).Some? {
        return false;
      }
      ok := CreateEmptyFileNode(ctx, target, name);
    }

    // release_file_entity_if_unused
    method ReleaseFileEntityIfUnused(f: int) returns (ok: bool)
      modifies this
      ensures State() == Release(old(State()), f) && ok == (f in old(files))
    {
      if f !in files {
        return false;
      }
      var sha := files[f].sha;
      DaoFileSubRefCount(f);
      if files[f].count > 0 {
        return true;
      }
      blobs := blobs - {sha};
      files := files - {f};
      return true;
    }

    method HandleRm(ctx: ClientContext, arg: string) returns (ok: bool)
      requires IdsOk(State())
      modifies this
      ensures Outcome(State(), ctx.State(), ok) == ExecRm(old(State()), ctx.userId, old(ctx.State()), arg)
    {
      if arg == "" {
        return false;
      }
      var k := Key(ctx.userId, BuildAbsPath(ctx.currentPath, arg));
      var node := GetNode(State(), k);
      if node == None || node.value.1 {
        return false;
      }
      var fileId := paths[k].fileId;
      if fileId == None {
        return false;
      }
      DaoDeleteNode(ctx.userId, node.value.0);
      assert paths == old(paths) - {k};
      ok := ReleaseFileEntityIfUnused(fileId.value);
    }

    method HandleRmdir(ctx: ClientContext, arg: string) returns (ok: bool)
      requires IdsOk(State()) && Key(ctx.userId, "/") !in paths
      modifies this
      ensures Outcome(State(), ctx.State(), ok) == ExecRmdir(old(State()), ctx.userId, old(ctx.State()), arg)
    {
      if arg == "" {
        return false;
      }
      var k := Key(ctx.userId, BuildAbsPath(ctx.currentPath, arg));
      var node := GetNode(State(), k);
      if node == None || !node.value.1 {
        return false;
      }
      if !IsDirEmpty(State(), ctx.userId, node.value.0) {
        return false;
      }
      DaoDeleteNode(ctx.userId, node.value.0);
      assert paths == old(paths) - {k};
      return true;
    }

    // ---------------------------------------------------------------- upload

    // The receiving loop of handle_puts, run on the file already extended to `size`. When the
    // connection ends early the file is cut back to what was really received.
    method ReceiveUpload(file: DiskFile, localSize: nat, size: nat, sock: Incoming) returns (complete: bool)
      requires localSize < size && |file.data| == size
      modifies file, sock
      ensures file.data == old(file.data)[..localSize] + Carried(old(sock.arriving), size - localSize)
      ensures complete == (|old(sock.arriving)| >= size - localSize)
      ensures sock.arriving == Unread(old(sock.arriving), size - localSize)
    {
      var remaining, receivedCount := size - localSize, 0;
      file.pos := localSize;
      while receivedCount < remaining
        invariant 0 <= receivedCount <= remaining && file.pos == localSize + receivedCount && |file.data| == size
        invariant receivedCount <= |old(sock.arriving)| && sock.arriving == old(sock.arriving)[receivedCount..]
        invariant file.data[..file.pos] == old(file.data)[..localSize] + old(sock.arriving)[..receivedCount]
      {
        var once := if remaining - receivedCount < BUFFER_SIZE then remaining - receivedCount else BUFFER_SIZE;
        var chunk := sock.Recv(once);
        if chunk == [] {
          break;
        }
        file.WriteFull(chunk);
        receivedCount := receivedCount + |chunk|;
        assert old(sock.arriving)[..receivedCount] == old(sock.arriving)[..receivedCount - |chunk|] + chunk;
      }
      if receivedCount < remaining {
        file.Truncate(localSize + receivedCount);
        return false;
      }
      assert file.data == file.data[..file.pos];
      return true;
    }

    // finish_upload_db_work. `registered`: the server can add itself to the file's sources.
    method FinishUploadDbWork(ctx: ClientContext, target: string, name: string, sha: string, size: nat,
                              registered: bool) returns (ok: bool)
      requires IdsOk(State())
      modifies this
      ensures (State(), ok) ==
              FinishUpload(old(State()), Key(ctx.userId, target), ctx.State(), name, sha, size, registered)
    {
      var inserted := DaoFileInsert(sha, size);
      ok := false;
      if inserted.Some? {
        ok := CreateUserFileLink(ctx, target, name, inserted.value, false);
      } else {
        var found := DaoFileFindBySha256(sha);
        if found.Some? {
          ok := CreateUserFileLink(ctx, target, name, found.value, true);
        }
      }
      if !ok {
        return false;
      }
      return registered;
    }

    // The part of handle_puts behind the answer: the receiving loop on the opened blob, and
    // the table work once it is whole.
    method ReceiveAndFinish(ctx: ClientContext, target: string, name: string, file: DiskFile, size: nat, hash: string,
                            registered: bool, sock: Incoming) returns (ok: bool, complete: bool)
      requires IdsOk(State()) && file.data == Stored(State(), hash, size)
      modifies this, file, sock
      ensures var cmd := Puts("", size, hash, old(sock.arriving), registered);
              Outcome(State(), ctx.State(), ok) ==
              Upload(old(State()), Key(ctx.userId, target), ctx.State(), name, cmd)
      ensures complete == (|old(sock.arriving)| >= size - |old(file.data)|)
      ensures sock.arriving == Unread(old(sock.arriving), size - |old(file.data)|)
    {
      complete := true;
      var localSize := |file.data|;
      if localSize < size {
        file.Truncate(size);
        complete := ReceiveUpload(file, localSize, size, sock);
      }
      assert file.data == Received(State(), hash, size, old(sock.arriving));
      blobs := blobs[hash := file.data];
      if !complete {
        return false, complete;
      }
      ok := FinishUploadDbWork(ctx, target, name, hash, size, registered);
    }

    // handle_puts from the client's file packet to the answer. When content is to follow,
    // `file` is the opened blob, cut to nothing if it was larger than announced.
    method OpenPuts(ctx: ClientContext, arg: string, size: nat, hash: string)
      returns (answer: PutsAnswer, ok: bool, file: DiskFile?, target: string, name: string)
      requires IdsOk(State())
      modifies this
      ensures match Opened(old(State()), ctx.userId, ctx.State(), arg, size, hash)
              case Settled(db, done, told) => file == null && State() == db && ok == done && answer == told
              case Awaiting(k, n) =>
                && State() == old(State()) && k == Key(ctx.userId, target) && n == name
                && file != null && fresh(file) && file.data == Stored(State(), hash, size)
                && answer == Packet(|file.data|, "")
    {
      hide TransferArg, InsertNode;
      file, target, name := null, "", "";
      if !TransferArg(arg) {
        return NoPacket, false, file, target, name;
      }
      target := Join(ctx.currentPath, arg);
      name := LastName(target);
      if !ValidName(name) {
        return NoPacket, false, file, target, name;
      }
      if GetNode(State(), Key(ctx.userId, target)).Some? {
        return Packet(size, ""), false, file, target, name;
      }
      if hash == "" {
        return NoPacket, false, file, target, name;
      }
      var existed := DaoFileFindBySha256(hash);
      if existed.Some? && StoreReady(State(), existed.value) {
        ok := CreateUserFileLink(ctx, target, name, existed.value, true);
        return if ok then Packet(0, hash) else NoPacket, ok, file, target, name;
      }
      file := new DiskFile(if hash in blobs then blobs[hash] else []);
      if |file.data| > size {
        file.Truncate(0);
      }
      return Packet(|file.data|, ""), false, file, target, name;
    }

    // handle_puts as a whole. `answer` is what the client is told before it sends any content.
    method HandlePuts(ctx: ClientContext, arg: string, size: nat, hash: string, registered: bool, sock: Incoming)
      returns (ok: bool, answer: PutsAnswer)
      requires IdsOk(State())
      modifies this, sock
      ensures var cmd := Puts(arg, size, hash, old(sock.arriving), registered);
              Outcome(State(), ctx.State(), ok) == ExecPuts(old(State()), ctx.userId, ctx.State(), cmd)
      ensures answer == AnswerPuts(old(State()), ctx.userId, ctx.State(), arg, size, hash)
      ensures var wanted := PutsWaitsFor(old(State()), ctx.userId, ctx.State(), arg, size, hash);
              sock.arriving == Unread(old(sock.arriving), wanted)
    {
      hide Opened, Stored, FinishUpload, IdsOk;
      var file, target, name;
      answer, ok, file, target, name := OpenPuts(ctx, arg, size, hash);
      if file != null {
        var complete;
        ok, complete := ReceiveAndFinish(ctx, target, name, file, size, hash, registered, sock);
      }
    }
  }
}
