// Reference counts for every command, argument and sender: no honesty, no tree and no blobs
// are needed for them.
module StoreCounts {
  import opened Wrappers
  import opened VirtualPath
  import opened Tables
  import opened Commands
  import opened StoreInvariants
  import opened StoreSteps

  ghost predicate TablesOk(db: Db)
  {
    IdsOk(db) && LinksOk(db) && CountsOk(db) && forall k :: k in db.paths ==> k.path != "/"
  }

  // The one way to lose count: a first upload comes in whole, and its path is too long for
  // the column, so the fresh file row counts a path row that is refused.
  ghost predicate Orphans(db: Db, user: int, s: Session, cmd: Command)
  {
    && cmd.Puts? && |Received(db, cmd.hash, cmd.size, cmd.stream)| >= cmd.size && FindSha(db, cmd.hash) == None
    && match Opened(db, user, s, cmd.arg, cmd.size, cmd.hash)
       case Awaiting(k, _) => |k.path| > MAX_PATH_COLUMN
       case _ => false
  }

  lemma LinkKeepsTables(db: Db, k: Key, s: Session, name: string, f: int)
    requires TablesOk(db) && f in db.files && k !in db.paths && k.path != "/"
    ensures TablesOk(AddRef(WithRow(db, k, Some(f), s.dirId, name, false), f))
  {
    LinkKeepsCounts(db, k, s, name, f);
  }

  lemma FirstLinkKeepsTables(db: Db, k: Key, s: Session, name: string, sha: string, size: nat)
    requires TablesOk(db) && FindSha(db, sha) == None && k !in db.paths && k.path != "/"
    ensures TablesOk(WithRow(InsertFile(db, sha, size), k, Some(db.nextFile), s.dirId, name, false))
  {
    FirstLinkKeepsCounts(db, k, s, name, sha, size);
  }

  lemma UnlinkKeepsTables(db: Db, k: Key, f: int)
    requires TablesOk(db) && k in db.paths && db.paths[k].fileId == Some(f)
    ensures TablesOk(Release(db.(paths := db.paths - {k}), f))
  {
    var db' := Release(db.(paths := db.paths - {k}), f);
    assert f in db.files;
    UnlinkKeepsCounts(db, k, f);
    UnlinkKeepsIds(db, k, f);
    forall l | l in db'.paths && db'.paths[l].fileId == Some(f)
      ensures f in db'.files
    {
      assert l in Refs(db'.paths, f);
    }
  }

  lemma DirKeepsTables(db: Db, k: Key, parentId: int, name: string)
    requires TablesOk(db) && k !in db.paths && k.path != "/"
    ensures TablesOk(WithRow(db, k, None, parentId, name, true))
  {
    DirKeepsCounts(db, k, parentId, name);
  }

  lemma DropDirKeepsTables(db: Db, k: Key)
    requires TablesOk(db) && k in db.paths && db.paths[k].isDir
    ensures TablesOk(db.(paths := db.paths - {k}))
  {
    var db' := db.(paths := db.paths - {k});
    forall g | g in db.files
      ensures Refs(db'.paths, g) == Refs(db.paths, g)
    {
      RefsWithoutRow(db.paths, k, g);
    }
  }

  lemma OrphanLosesCount(db: Db, sha: string, size: nat)
    requires TablesOk(db)
    ensures !CountsOk(InsertFile(db, sha, size))
  {
    var db' := InsertFile(db, sha, size);
    NoRefsYet(db, db.nextFile);
    assert db.nextFile in db'.files && Refs(db'.paths, db.nextFile) == {};
  }

  lemma UploadKeepsCountsIff(db: Db, k: Key, s: Session, name: string, cmd: Command)
    requires cmd.Puts? && TablesOk(db) && k !in db.paths && k.path != "/" && ValidName(name)
    ensures var db' := Upload(db, k, s, name, cmd).db;
            var orphan := |Received(db, cmd.hash, cmd.size, cmd.stream)| >= cmd.size && FindSha(db, cmd.hash) == None
                          && |k.path| > MAX_PATH_COLUMN;
            (CountsOk(db') <==> !orphan) && (!orphan ==> TablesOk(db'))
  {
    hide Received, CountsOk, LinksOk;
    var db1 := db.(blobs := db.blobs[cmd.hash := Received(db, cmd.hash, cmd.size, cmd.stream)]);
    BlobsDoNotCount(db, db1.blobs);
    match FindSha(db1, cmd.hash)
    case None =>
      OrphanLosesCount(db1, cmd.hash, cmd.size);
      FirstLinkKeepsTables(db1, k, s, name, cmd.hash, cmd.size);
    case Some(f) =>
      LinkKeepsTables(db1, k, s, name, f);
  }

  lemma BlobsDoNotCount(db: Db, blobs: map<string, Bytes>)
    ensures TablesOk(db.(blobs := blobs)) == TablesOk(db)
  {
  }

  lemma PutsCounts(db: Db, user: int, s: Session, cmd: Command)
    requires cmd.Puts? && TablesOk(db)
    ensures var db' := ExecPuts(db, user, s, cmd).db;
            (CountsOk(db') <==> !Orphans(db, user, s, cmd)) && (!Orphans(db, user, s, cmd) ==> TablesOk(db'))
  {
    hide IdsOk, LinksOk, CountsOk, Received, Upload, TransferArg, LastName, StoreReady;
    var k := Key(user, Join(s.path, cmd.arg));
    match Opened(db, user, s, cmd.arg, cmd.size, cmd.hash)
    case Awaiting(l, name) =>
      UploadKeepsCountsIff(db, l, s, name, cmd);
    case Settled(_, ok, _) =>
      if ok {
        LinkKeepsTables(db, k, s, LastName(k.path), FindSha(db, cmd.hash).value);
      }
  }

  lemma TouchCounts(db: Db, user: int, s: Session, arg: string)
    requires TablesOk(db)
    ensures TablesOk(ExecTouch(db, user, s, arg).db)
  {
    hide IdsOk, LinksOk, CountsOk, LastName;
    var t := Target(s, Touch(arg));
    if t.Some? && ValidName(LastName(t.value)) && GetNode(db, Key(user, t.value)) == None {
      var db1 := WithEmptyBlob(db);
      BlobsDoNotCount(db, db1.blobs);
      LinkEmptyCounts(db1, Key(user, t.value), s, LastName(t.value));
    }
  }

  lemma LinkEmptyCounts(db: Db, k: Key, s: Session, name: string)
    requires TablesOk(db) && k !in db.paths && k.path != "/"
    ensures TablesOk(LinkEmptyFile(db, k, s, name).0)
  {
    hide LinksOk, CountsOk;
    match FindSha(db, EMPTY_SHA)
    case Some(f) => LinkKeepsTables(db, k, s, name, f);
    case None =>
      FirstLinkKeepsTables(db, k, s, name, EMPTY_SHA, 0);
      UsedIdDoesNotCount(db);
  }

  lemma UsedIdDoesNotCount(db: Db)
    requires TablesOk(db)
    ensures TablesOk(db.(nextFile := db.nextFile + 1))
  {
  }

  lemma RmCounts(db: Db, user: int, s: Session, arg: string)
    requires TablesOk(db)
    ensures TablesOk(ExecRm(db, user, s, arg).db)
  {
    hide IdsOk, LinksOk, CountsOk, Release;
    var t := Target(s, Rm(arg));
    if t.Some? {
      var k := Key(user, t.value);
      if k in db.paths && db.paths[k].fileId.Some? {
        UnlinkKeepsTables(db, k, db.paths[k].fileId.value);
      }
    }
  }

  lemma DirCounts(db: Db, user: int, s: Session, arg: string)
    requires TablesOk(db)
    ensures TablesOk(ExecMkdir(db, user, s, arg).db) && TablesOk(ExecRmdir(db, user, s, arg).db)
  {
    hide IdsOk, LinksOk, CountsOk, LastName;
    if arg != "" {
      var k := Key(user, BuildAbsPath(s.path, arg));
      if k in db.paths && db.paths[k].isDir {
        DropDirKeepsTables(db, k);
      } else if k !in db.paths && k.path != "/" {
        DirKeepsTables(db, k, s.dirId, LastName(k.path));
      }
      assert k !in db.paths ==> db.paths - {k} == db.paths;
    }
  }

  // Whatever the command, its argument and its sender: the counts stay right if, and only
  // if, it is not that one upload.
  lemma CountsStepIff(db: Db, user: int, s: Session, cmd: Command)
    requires TablesOk(db)
    ensures var db' := Exec(db, user, s, cmd).db;
            && (CountsOk(db') <==> !Orphans(db, user, s, cmd))
            && (!Orphans(db, user, s, cmd) ==> TablesOk(db'))
  {
    hide IdsOk, LinksOk, CountsOk, ExecMkdir, ExecTouch, ExecRm, ExecRmdir, ExecPuts;
    match cmd
    case Cd(_) =>
    case Mkdir(arg) => DirCounts(db, user, s, arg);
    case Touch(arg) => TouchCounts(db, user, s, arg);
    case Rm(arg) => RmCounts(db, user, s, arg);
    case Rmdir(arg) => DirCounts(db, user, s, arg);
    case Puts(_, _, _, _, _) => PutsCounts(db, user, s, cmd);
  }

  lemma OnlyPutsOrphans(db: Db, user: int, s: Session, cmd: Command)
    requires !cmd.Puts?
    ensures !Orphans(db, user, s, cmd)
  {
  }

  lemma ShortPathsNeverOrphan(db: Db, user: int, s: Session, cmd: Command)
    requires cmd.Puts? && |Join(s.path, cmd.arg)| <= MAX_PATH_COLUMN
    ensures !Orphans(db, user, s, cmd)
  {
  }
}
