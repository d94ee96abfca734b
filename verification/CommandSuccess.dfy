// When a command succeeds, said of paths and contents only, and what it then has done.
module CommandSuccess {
  import opened Wrappers
  import opened VirtualPath
  import opened Tables
  import opened Commands
  import opened StoreInvariants
  import opened StoreSteps

  // ---------------------------------------------------------------- names

  ghost predicate ContainsDotDot(arg: string)
  {
    exists a, b :: arg == a + ".." + b
  }

  // A single name is any text without a slash and without two dots in a row.
  lemma TransferArgIff(arg: string)
    ensures TransferArg(arg) <==> arg != "" && '/' !in arg && !ContainsDotDot(arg)
  {
    if HasDotDot(arg) {
      var i :| 0 <= i < |arg| - 1 && arg[i] == '.' && arg[i + 1] == '.';
      assert arg == arg[..i] + ".." + arg[i + 2..];
    }
    if a, b :| arg == a + ".." + b {
      assert arg[|a|] == '.' && arg[|a| + 1] == '.';
    }
  }

  lemma DotsInNames()
    ensures TransferArg("report.txt") && TransferArg(".") && TransferArg("a.b.c") && !TransferArg("a..b")
  {
    assert "a..b"[1] == '.' && "a..b"[2] == '.';
  }

  // ---------------------------------------------------------------- directories

  lemma LookAt(db: Db, content: Content, k: Key)
    requires StoreOk(db, content)
    ensures Look(db, k) == None <==> k !in db.paths
    ensures Look(db, k) == Some(Dir) <==> k in db.paths && db.paths[k].isDir
    ensures k in db.paths && !db.paths[k].isDir ==>
              && db.paths[k].fileId.Some? && db.paths[k].fileId.value in db.files
              && Look(db, k) == Some(File(content(db.files[db.paths[k].fileId.value].sha)))
    ensures k in db.paths ==> k.path != "/"
  {
    RootHasNoRow(db, k.user);
  }

  lemma ParentIsThere(db: Db, content: Content, user: int, s: Session)
    requires StoreOk(db, content) && SessionOk(db, user, s)
    ensures ParentPath(s.path) == "/" || Look(db, Key(user, ParentPath(s.path))) == Some(Dir)
  {
    if s.dirId != 0 {
      ParentKey(db.paths, Key(user, s.path));
      LookAt(db, content, Key(user, ParentPath(s.path)));
    }
  }

  // cd succeeds exactly for ".", "..", the root and what looks like a directory, and goes there.
  lemma CdSucceedsIff(db: Db, content: Content, user: int, s: Session, arg: string)
    requires StoreOk(db, content) && SessionOk(db, user, s)
    ensures var r := ExecCd(db, user, s, arg);
            && (r.ok <==>
                  && arg != ""
                  && (arg == "." || arg == ".." || BuildAbsPath(s.path, arg) == "/"
                      || Look(db, Key(user, BuildAbsPath(s.path, arg))) == Some(Dir)))
            && (!r.ok || arg == "." ==> r.session == s)
            && (r.ok && arg == ".." ==> r.session.path == ParentPath(s.path))
            && (r.ok && arg != ".." && arg != "." ==> r.session.path == BuildAbsPath(s.path, arg))
  {
    hide StoreOk, SessionOk, ParentPath, BuildAbsPath, Look;
    if arg == ".." {
      ParentIsThere(db, content, user, s);
      LookAt(db, content, Key(user, ParentPath(s.path)));
    } else if arg != "" {
      LookAt(db, content, Key(user, BuildAbsPath(s.path, arg)));
    }
  }

  // What mkdir and touch ask of a new path.
  predicate FreePath(db: Db, k: Key)
  {
    k.path != "/" && Look(db, k) == None && |k.path| <= 255 && 0 < |LastName(k.path)| <= 30
  }

  // mkdir succeeds exactly for a free path that fits, and then it is a directory.
  lemma MkdirSucceedsIff(db: Db, content: Content, user: int, s: Session, arg: string)
    requires StoreOk(db, content)
    ensures var r := ExecMkdir(db, user, s, arg);
            && (r.ok <==> arg != "" && FreePath(db, Key(user, BuildAbsPath(s.path, arg))))
            && (r.ok ==> ChangesOnly(db, r.db, Key(user, BuildAbsPath(s.path, arg)), Some(Dir)))
            && (!r.ok ==> r.db == db)
  {
    hide StoreOk, LastName, BuildAbsPath, Look;
    if arg != "" {
      var k := Key(user, BuildAbsPath(s.path, arg));
      LookAt(db, content, k);
      if FreePath(db, k) {
        StoreBlobs(db, content);
        NewRowView(db, content, k, None, s.dirId, LastName(k.path), true);
      }
    }
  }

  lemma StoreBlobs(db: Db, content: Content)
    requires StoreOk(db, content)
    ensures IdsOk(db) && BlobsOk(db, content)
  {
  }

  // touch likewise, and then it is an empty file.
  lemma TouchSucceedsIff(db: Db, content: Content, user: int, s: Session, arg: string)
    requires StoreOk(db, content) && content(EMPTY_SHA) == []
    ensures var r := ExecTouch(db, user, s, arg);
            && (r.ok <==> arg != "" && FreePath(db, Key(user, BuildAbsPath(s.path, arg))))
            && (r.ok ==> ChangesOnly(db, r.db, Key(user, BuildAbsPath(s.path, arg)), Some(File([]))))
            && (!r.ok ==> SameView(db, r.db))
  {
    hide StoreOk, LastName, BuildAbsPath, Look, LinkEmptyFile, ChangesOnly;
    if arg != "" {
      var k := Key(user, BuildAbsPath(s.path, arg));
      LookAt(db, content, k);
      EmptyBlob(db, content);
      BlobWriteKeepsStore(db, content, EMPTY_SHA, []);
      assert WithEmptyBlob(db) == db.(blobs := db.blobs[EMPTY_SHA := []]);
      if GetNode(db, k) == None && ValidName(LastName(k.path)) {
        LinkEmptyIff(WithEmptyBlob(db), content, k, s, LastName(k.path));
        SameThenChange(db, WithEmptyBlob(db), LinkEmptyFile(WithEmptyBlob(db), k, s, LastName(k.path)).0, k,
                       Some(File([])));
      }
    }
  }

  lemma SameThenChange(a: Db, b: Db, c: Db, k: Key, e: Option<Entry>)
    requires SameView(a, b)
    ensures ChangesOnly(b, c, k, e) ==> ChangesOnly(a, c, k, e)
    ensures SameView(b, c) ==> SameView(a, c)
  {
  }

  lemma LinkEmptyIff(db: Db, content: Content, k: Key, s: Session, name: string)
    requires StoreOk(db, content) && content(EMPTY_SHA) == [] && EMPTY_SHA in db.blobs
    requires k !in db.paths && ValidName(name)
    ensures var (db', ok) := LinkEmptyFile(db, k, s, name);
            && (ok <==> |k.path| <= MAX_PATH_COLUMN)
            && (if ok then ChangesOnly(db, db', k, Some(File([]))) else SameView(db, db'))
  {
    hide StoreOk, Look, LinksOk, CountsOk, TreeOk;
    EmptyBlob(db, content);
    StoreBlobs(db, content);
    match FindSha(db, EMPTY_SHA)
    case Some(f) =>
      NewRowView(db, content, k, Some(f), s.dirId, name, false);
      AddRefView(WithRow(db, k, Some(f), s.dirId, name, false), f);
    case None =>
      FreshFileView(db, content);
      NewRowView(InsertFile(db, EMPTY_SHA, 0), content, k, Some(db.nextFile), s.dirId, name, false);
  }

  lemma AddRefView(db: Db, f: int)
    ensures SameView(db, AddRef(db, f))
  {
  }

  lemma FreshFileView(db: Db, content: Content)
    requires StoreOk(db, content) && content(EMPTY_SHA) == [] && EMPTY_SHA in db.blobs && FindSha(db, EMPTY_SHA) == None
    ensures BlobsOk(InsertFile(db, EMPTY_SHA, 0), content) && SameView(db, InsertFile(db, EMPTY_SHA, 0))
    ensures SameView(db, db.(nextFile := db.nextFile + 1))
  {
    EmptyBlob(db, content);
    StoreRest(db, content);
    InsertFileKeepsRest(db, content, EMPTY_SHA);
  }

  lemma StoreRest(db: Db, content: Content)
    requires StoreOk(db, content)
    ensures RestOk(db, content)
  {
  }

  // ---------------------------------------------------------------- removing

  predicate LastOneTakesTheBytes(db: Db, after: Db, k: Key)
    requires k in db.paths && db.paths[k].fileId.Some? && db.paths[k].fileId.value in db.files
  {
    var f := db.paths[k].fileId.value;
    var sha := db.files[f].sha;
    && ((forall l :: l in db.paths && l != k ==> db.paths[l].fileId != Some(f)) ==>
          f !in after.files && sha !in after.blobs)
    && (forall h :: h in db.blobs && h != sha ==> h in after.blobs && after.blobs[h] == db.blobs[h])
  }

  // rm succeeds exactly for what looks like a file; then that path is gone, and every other
  // path, the ones that share the file included, looks as before. The last of them takes the
  // file row and the bytes on disk along, and no other bytes.
  lemma RmSucceedsIff(db: Db, content: Content, user: int, s: Session, arg: string)
    requires StoreOk(db, content)
    ensures var r := ExecRm(db, user, s, arg);
            && (r.ok <==>
                  arg != "" && var e := Look(db, Key(user, BuildAbsPath(s.path, arg))); e.Some? && e.value.File?)
            && (!r.ok ==> r.db == db)
            && (r.ok ==>
                  var k := Key(user, BuildAbsPath(s.path, arg));
                  && k in db.paths && db.paths[k].fileId.Some? && db.paths[k].fileId.value in db.files
                  && k !in r.db.paths && ChangesOnly(db, r.db, k, None)
                  && (forall l :: l in db.paths && l != k && db.paths[l].fileId == db.paths[k].fileId ==>
                        l in r.db.paths && r.db.paths[l] == db.paths[l] && db.paths[l].fileId.value in r.db.files)
                  && LastOneTakesTheBytes(db, r.db, k))
  {
    hide StoreOk, BuildAbsPath, Look, ChangesOnly, LastOneTakesTheBytes;
    if arg != "" {
      var k := Key(user, BuildAbsPath(s.path, arg));
      LookAt(db, content, k);
      if k in db.paths && !db.paths[k].isDir {
        UnlinkKeepsStore(db, content, k, db.paths[k].fileId.value);
        SharedFileStays(db, content, k);
      } else if k in db.paths {
        DirectoryHasNoFile(db, content, k);
      }
    }
  }

  lemma DirectoryHasNoFile(db: Db, content: Content, k: Key)
    requires StoreOk(db, content) && k in db.paths && db.paths[k].isDir
    ensures db.paths[k].fileId == None
  {
  }

  lemma SharedFileStays(db: Db, content: Content, k: Key)
    requires StoreOk(db, content) && k in db.paths && !db.paths[k].isDir && db.paths[k].fileId.Some?
    ensures var f := db.paths[k].fileId.value;
            var db' := Release(db.(paths := db.paths - {k}), f);
            && f in db.files && db'.paths == db.paths - {k}
            && (forall l :: l in db.paths && l != k && db.paths[l].fileId == Some(f) ==> f in db'.files)
            && LastOneTakesTheBytes(db, db', k)
  {
    var f := db.paths[k].fileId.value;
    UnlinkKeepsCounts(db, k, f);
    if forall l :: l in db.paths && l != k ==> db.paths[l].fileId != Some(f) {
      assert Refs(db.paths - {k}, f) == {};
    }
    forall l | l in db.paths && l != k && db.paths[l].fileId == Some(f)
      ensures f in Release(db.(paths := db.paths - {k}), f).files
    {
      assert l in Refs(db.paths - {k}, f);
    }
  }

  // Whoever owns anything owns something directly in the root.
  lemma {:induction false} TopRow(db: Db, k: Key)
    requires TreeOk(db.paths) && k in db.paths
    ensures exists c :: c in db.paths && c.user == k.user && db.paths[c].parentId == 0
    decreases |k.path|
  {
    if db.paths[k].parentId != 0 {
      assert RowOk(db.paths, k);
      var q :| IsParent(db.paths, q, k);
      TopRow(db, q);
    }
  }

  lemma EmptyRootMeansNothing(db: Db, content: Content, user: int)
    requires StoreOk(db, content)
    ensures IsDirEmpty(db, user, 0) <==> forall k :: k in db.paths ==> k.user != user
  {
    if k :| k in db.paths && k.user == user {
      TopRow(db, k);
    }
  }

  // rmdir succeeds exactly for what looks like a directory with nothing below it; then that
  // path is gone. The root has no row to lose: rmdir of it succeeds for a user without paths.
  lemma RmdirSucceedsIff(db: Db, content: Content, user: int, s: Session, arg: string)
    requires StoreOk(db, content)
    ensures var r := ExecRmdir(db, user, s, arg);
            && (r.ok <==>
                  && arg != ""
                  && var k := Key(user, BuildAbsPath(s.path, arg));
                     if k.path == "/" then forall l :: l in db.paths ==> l.user != user
                     else
                       && Look(db, k) == Some(Dir)
                       && forall l :: l in db.paths && l.user == user ==> !Below(l.path, k.path))
            && (!r.ok ==> r.db == db)
            && (r.ok ==> ChangesOnly(db, r.db, Key(user, BuildAbsPath(s.path, arg)), None))
  {
    hide StoreOk, BuildAbsPath, Look, ChangesOnly, IsDirEmpty, Below;
    if arg != "" {
      var k := Key(user, BuildAbsPath(s.path, arg));
      LookAt(db, content, k);
      if k.path == "/" {
        EmptyRootMeansNothing(db, content, user);
        assert db.paths - {k} == db.paths;
        LookAtRoot(db, k);
      } else if k in db.paths && db.paths[k].isDir {
        DroppableDir(db, content, k);
      }
    }
  }

  lemma DroppableDir(db: Db, content: Content, k: Key)
    requires StoreOk(db, content) && k in db.paths && db.paths[k].isDir
    ensures IsDirEmpty(db, k.user, db.paths[k].id) <==>
            forall l :: l in db.paths && l.user == k.user ==> !Below(l.path, k.path)
    ensures ChangesOnly(db, db.(paths := db.paths - {k}), k, None)
  {
    hide IsDirEmpty, Below, IdsOk, TreeOk, LinksOk, CountsOk, BlobsOk;
    EmptyMeansNothingBelow(db, k);
    DropDirKeepsRest(db, content, k);
  }

  // ---------------------------------------------------------------- uploading

  // How many bytes of a hash are on disk.
  function OnDisk(db: Db, hash: string): nat
  {
    if hash in db.blobs then |db.blobs[hash]| else 0
  }

  // Somebody has content of this hash in their drive.
  ghost predicate Known(db: Db, hash: string)
  {
    exists f :: f in db.files && db.files[f].sha == hash
  }

  lemma KnownIff(db: Db, hash: string)
    ensures Known(db, hash) <==> FindSha(db, hash).Some?
    ensures Known(db, hash) ==>
              FindSha(db, hash).value in db.files && db.files[FindSha(db, hash).value].sha == hash
  {
    if Known(db, hash) {
      var f :| f in db.files && db.files[f].sha == hash;
      assert ShaIn(db.files, hash).Some?;
    }
  }

  // puts by an honest sender succeeds exactly for a legal name of a free path that fits, some
  // hash, and content that is there already, or comes in whole to a server that can register
  // itself. What is there already needs no byte and is announced with the hash.
  lemma PutsSucceedsIff(db: Db, content: Content, user: int, s: Session, cmd: Command)
    requires cmd.Puts? && StoreOk(db, content) && SessionOk(db, user, s) && Honest(db, cmd, content)
    requires |Join(s.path, cmd.arg)| <= MAX_PATH_COLUMN
    ensures var k := Key(user, Join(s.path, cmd.arg));
            var known := Known(db, cmd.hash);
            var r := ExecPuts(db, user, s, cmd);
            && (r.ok <==>
                  && cmd.arg != "" && '/' !in cmd.arg && !ContainsDotDot(cmd.arg) && |cmd.arg| <= 30
                  && Look(db, k) == None && cmd.hash != ""
                  && (known || (OnDisk(db, cmd.hash) + |cmd.stream| >= cmd.size && cmd.registered)))
            && (r.ok ==> ChangesOnly(db, r.db, k, Some(File(content(cmd.hash)))))
            && (r.ok && known ==>
                  && PutsWaitsFor(db, user, s, cmd.arg, cmd.size, cmd.hash) == 0
                  && AnswerPuts(db, user, s, cmd.arg, cmd.size, cmd.hash) == Packet(0, cmd.hash))
  {
    hide StoreOk, SessionOk, Look, ChangesOnly, Upload, LastName, TransferArg, Honest, ContainsDotDot, OnDisk;
    hide Known, FindSha;
    KnownIff(db, cmd.hash);
    var k := Key(user, Join(s.path, cmd.arg));
    TransferArgIff(cmd.arg);
    LookAt(db, content, k);
    SessionPathNonEmpty(db, content, user, s);
    if TransferArg(cmd.arg) {
      SingleName(s, cmd.arg);
      if |cmd.arg| <= 30 && k !in db.paths && cmd.hash != "" {
        match FindSha(db, cmd.hash)
        case Some(f) =>
          FileRowsAreReady(db, content, f);
          InstantUpload(db, content, user, s, cmd, f);
        case None =>
          UploadStep(db, content, k, s, cmd.arg, cmd);
          StoredIsOnDisk(db, content, cmd);
      }
    }
  }

  // What somebody has uploaded before is linked, counted and answered with its hash.
  lemma InstantUpload(db: Db, content: Content, user: int, s: Session, cmd: Command, f: int)
    requires cmd.Puts? && StoreOk(db, content) && SessionOk(db, user, s) && s.path != "" && cmd.hash != ""
    requires FindSha(db, cmd.hash) == Some(f) && StoreReady(db, f)
    requires TransferArg(cmd.arg) && |cmd.arg| <= 30
    requires var k := Key(user, Join(s.path, cmd.arg)); k !in db.paths && |k.path| <= MAX_PATH_COLUMN
    ensures var k := Key(user, Join(s.path, cmd.arg));
            var db' := AddRef(WithRow(db, k, Some(f), s.dirId, cmd.arg, false), f);
            && Opened(db, user, s, cmd.arg, cmd.size, cmd.hash) == Settled(db', true, Packet(0, cmd.hash))
            && ChangesOnly(db, db', k, Some(File(content(cmd.hash))))
  {
    hide StoreOk, SessionOk, Look, ChangesOnly, LastName, HasDotDot;
    var k := Key(user, Join(s.path, cmd.arg));
    SingleName(s, cmd.arg);
    LinkKeepsStoreView(db, content, k, s, cmd.arg, f);
  }

  lemma SingleName(s: Session, arg: string)
    requires s.path != "" && TransferArg(arg)
    ensures arg != "" && '/' !in arg && LastName(Join(s.path, arg)) == arg && Join(s.path, arg) != "/"
  {
    JoinSplits(s.path, arg);
  }

  lemma LinkKeepsStoreView(db: Db, content: Content, k: Key, s: Session, name: string, f: int)
    requires StoreOk(db, content) && SessionOk(db, k.user, s) && f in db.files
    requires k !in db.paths && ValidName(name) && '/' !in name && k.path == Join(s.path, name)
    ensures var db' := AddRef(WithRow(db, k, Some(f), s.dirId, name, false), f);
            ChangesOnly(db, db', k, Some(File(content(db.files[f].sha))))
  {
    LinkKeepsStore(db, content, k, s, name, f);
  }

  lemma StoredIsOnDisk(db: Db, content: Content, cmd: Command)
    requires cmd.Puts? && StoreOk(db, content) && Honest(db, cmd, content)
    ensures |Received(db, cmd.hash, cmd.size, cmd.stream)| == OnDisk(db, cmd.hash) + |cmd.stream| <= cmd.size
  {
  }

  // A leftover that is larger than what is announced counts for nothing: the server asks for
  // the whole content again.
  lemma LargeLeftoverStartsOver(db: Db, user: int, s: Session, arg: string, size: nat, hash: string)
    requires Opened(db, user, s, arg, size, hash).Awaiting?
    ensures var offset := if OnDisk(db, hash) <= size then OnDisk(db, hash) else 0;
            && AnswerPuts(db, user, s, arg, size, hash) == Packet(offset, "")
            && PutsWaitsFor(db, user, s, arg, size, hash) == size - offset
  {
  }

  // ---------------------------------------------------------------- login

  // A refused login leaves the connection without a user, a granted one with the new user;
  // only the very first one moves to the root.
  lemma LoginSetsUser(user: int, s: Session, newUser: int)
    ensures AfterLogin(user, s, None) == (LOGGED_OUT, s)
    ensures AfterLogin(LOGGED_OUT, s, Some(newUser)) == (newUser, Session("/", 0))
    ensures user != LOGGED_OUT ==> AfterLogin(user, s, Some(newUser)) == (newUser, s)
  {
  }
}
