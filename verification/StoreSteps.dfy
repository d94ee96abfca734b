// Every command keeps the store's invariants, and changes exactly the one path it names.
module StoreSteps {
  import opened Wrappers
  import opened VirtualPath
  import opened Tables
  import opened Commands
  import opened StoreInvariants

  // ---------------------------------------------------------------- path rows

  function WithRow(db: Db, k: Key, fileId: Option<int>, parentId: int, name: string, isDir: bool): Db
  {
    db.(paths := db.paths[k := PathRow(db.nextNode, fileId, parentId, name, isDir)], nextNode := db.nextNode + 1)
  }

  // A new row keeps the tree if, and only if, it goes directly under the session's directory,
  // because that directory's id is what the row gets as its parent.
  lemma NewRowKeepsTreeIff(db: Db, k: Key, fileId: Option<int>, s: Session, name: string, isDir: bool)
    requires IdsOk(db) && TreeOk(db.paths) && SessionOk(db, k.user, s)
    requires k !in db.paths && ValidName(name) && '/' !in name
    ensures TreeOk(WithRow(db, k, fileId, s.dirId, name, isDir).paths) <==> k.path == Join(s.path, name)
  {
    var paths' := WithRow(db, k, fileId, s.dirId, name, isDir).paths;
    if k.path == Join(s.path, name) {
      NewRowIsOk(db, paths', k, s);
      OldRowsStayOk(db, paths', k);
    }
    if TreeOk(paths') {
      assert RowOk(paths', k);
      if s.dirId != 0 {
        RowPathStarts(db.paths, Key(k.user, s.path));
        var q :| IsParent(paths', q, k);
        assert |q.path| < |k.path|;
        assert q in db.paths && db.paths[q].id == s.dirId;
        assert q == Key(k.user, s.path);
      }
    }
  }

  lemma NewRowIsOk(db: Db, paths': map<Key, PathRow>, k: Key, s: Session)
    requires TreeOk(db.paths) && SessionOk(db, k.user, s) && k !in db.paths && k in paths'
    requires paths' == db.paths[k := paths'[k]] && paths'[k].parentId == s.dirId
    requires ValidName(paths'[k].name) && '/' !in paths'[k].name && k.path == Join(s.path, paths'[k].name)
    ensures RowOk(paths', k)
  {
    if s.dirId != 0 {
      RowPathStarts(db.paths, Key(k.user, s.path));
      assert IsParent(paths', Key(k.user, s.path), k);
    }
  }

  lemma OldRowsStayOk(db: Db, paths': map<Key, PathRow>, k: Key)
    requires TreeOk(db.paths) && k !in db.paths && k in paths' && paths' == db.paths[k := paths'[k]]
    ensures forall l :: l in db.paths ==> RowOk(paths', l)
  {
    forall l | l in db.paths
      ensures RowOk(paths', l)
    {
      assert RowOk(db.paths, l);
      if db.paths[l].parentId != 0 {
        var q :| IsParent(db.paths, q, l);
        assert IsParent(paths', q, l);
      }
    }
  }

  lemma NewRowKeepsIds(db: Db, k: Key, fileId: Option<int>, parentId: int, name: string, isDir: bool)
    requires IdsOk(db) && k !in db.paths
    ensures IdsOk(WithRow(db, k, fileId, parentId, name, isDir))
  {
  }

  // A row that is nobody's parent can go.
  lemma DroppedRowKeepsTree(db: Db, k: Key)
    requires IdsOk(db) && TreeOk(db.paths) && k in db.paths
    requires db.paths[k].isDir ==> IsDirEmpty(db, k.user, db.paths[k].id)
    ensures TreeOk(db.paths - {k})
  {
    var paths' := db.paths - {k};
    forall l | l in paths'
      ensures RowOk(paths', l)
    {
      assert RowOk(db.paths, l);
      if db.paths[l].parentId != 0 {
        var q :| IsParent(db.paths, q, l);
        assert IsParent(paths', q, l);
      }
    }
  }

  // ---------------------------------------------------------------- reference counts

  lemma RefsWithRow(paths: map<Key, PathRow>, k: Key, row: PathRow, f: int)
    requires k !in paths
    ensures Refs(paths[k := row], f) == Refs(paths, f) + if row.fileId == Some(f) then {k} else {}
    ensures |Refs(paths[k := row], f)| == |Refs(paths, f)| + if row.fileId == Some(f) then 1 else 0
  {
  }

  lemma RefsWithoutRow(paths: map<Key, PathRow>, k: Key, f: int)
    requires k in paths
    ensures Refs(paths - {k}, f) == Refs(paths, f) - if paths[k].fileId == Some(f) then {k} else {}
    ensures |Refs(paths - {k}, f)| == |Refs(paths, f)| - if paths[k].fileId == Some(f) then 1 else 0
  {
  }

  // One more row for a file and one more on its count.
  lemma LinkKeepsCounts(db: Db, k: Key, s: Session, name: string, f: int)
    requires CountsOk(db) && f in db.files && k !in db.paths
    ensures CountsOk(AddRef(WithRow(db, k, Some(f), s.dirId, name, false), f))
  {
    var db' := AddRef(WithRow(db, k, Some(f), s.dirId, name, false), f);
    forall g | g in db'.files
      ensures db'.files[g].count == |Refs(db'.paths, g)| && db'.files[g].count > 0
    {
      RefsWithRow(db.paths, k, db'.paths[k], g);
    }
  }

  // A fresh file row counts one, for the path row that comes with it.
  lemma FirstLinkKeepsCounts(db: Db, k: Key, s: Session, name: string, sha: string, size: nat)
    requires IdsOk(db) && LinksOk(db) && CountsOk(db) && k !in db.paths
    ensures CountsOk(WithRow(InsertFile(db, sha, size), k, Some(db.nextFile), s.dirId, name, false))
  {
    var db' := WithRow(InsertFile(db, sha, size), k, Some(db.nextFile), s.dirId, name, false);
    forall g | g in db'.files
      ensures db'.files[g].count == |Refs(db'.paths, g)| && db'.files[g].count > 0
    {
      RefsWithRow(db.paths, k, db'.paths[k], g);
      if g == db.nextFile {
        NoRefsYet(db, g);
      }
    }
  }

  lemma NoRefsYet(db: Db, f: int)
    requires LinksOk(db) && f !in db.files
    ensures Refs(db.paths, f) == {}
  {
  }

  lemma DirKeepsCounts(db: Db, k: Key, parentId: int, name: string)
    requires CountsOk(db) && k !in db.paths
    ensures CountsOk(WithRow(db, k, None, parentId, name, true))
  {
    var db' := WithRow(db, k, None, parentId, name, true);
    forall g | g in db'.files
      ensures db'.files[g].count == |Refs(db'.paths, g)|
    {
      RefsWithRow(db.paths, k, db'.paths[k], g);
    }
  }

  lemma UnlinkKeepsCounts(db: Db, k: Key, f: int)
    requires CountsOk(db) && k in db.paths && db.paths[k].fileId == Some(f) && f in db.files
    ensures CountsOk(Release(db.(paths := db.paths - {k}), f))
    ensures f !in Release(db.(paths := db.paths - {k}), f).files <==> Refs(db.paths - {k}, f) == {}
  {
    var db' := Release(db.(paths := db.paths - {k}), f);
    RefsWithoutRow(db.paths, k, f);
    forall g | g in db'.files
      ensures db'.files[g].count == |Refs(db'.paths, g)| && db'.files[g].count > 0
    {
      RefsWithoutRow(db.paths, k, g);
    }
  }

  // ---------------------------------------------------------------- commands

  // What the model asks of a caller: the target fits the server's buffers and the column,
  // mkdir and touch name an entry of the current directory, rmdir leaves the directory the
  // session stands in, and an upload sends the content its hash stands for, to a server that
  // can register itself as its source.
  ghost predicate Proper(db: Db, s: Session, cmd: Command, content: Content)
  {
    match Target(s, cmd)
    case None => true
    case Some(target) =>
      && |target| <= MAX_PATH_COLUMN
      && (cmd.Mkdir? || cmd.Touch? ==> target == Join(s.path, LastName(target)))
      && (cmd.Rmdir? ==> target != s.path || target == "/")
      && (cmd.Puts? ==> Honest(db, cmd, content) && cmd.registered)
  }

  // The sender announces the right size and sends the content from the offset it was given,
  // for as long as the connection lasts.
  ghost predicate Honest(db: Db, cmd: Command, content: Content)
    requires cmd.Puts?
  {
    && cmd.size == |content(cmd.hash)|
    && var stored := Stored(db, cmd.hash, cmd.size);
       cmd.stream <= content(cmd.hash)[|stored|..]
  }

  // What a file system without sharing would have at the target after a successful command.
  ghost function NewEntry(cmd: Command, content: Content): Option<Entry>
  {
    match cmd
    case Mkdir(_) => Some(Dir)
    case Touch(_) => Some(File([]))
    case Puts(_, _, hash, _, _) => Some(File(content(hash)))
    case _ => None
  }

  ghost predicate ChangesOnly(before: Db, after: Db, k: Key, e: Option<Entry>)
  {
    forall l :: Look(after, l) == if l == k then e else Look(before, l)
  }

  ghost predicate SameView(before: Db, after: Db)
  {
    forall l :: Look(after, l) == Look(before, l)
  }

  ghost predicate KeepsSessions(before: Db, after: Db)
  {
    forall u, t :: SessionOk(before, u, t) ==> SessionOk(after, u, t)
  }

  // The store keeps its invariants, every session keeps standing in its directory, and what
  // users see changes at the target only, and only on success.
  ghost predicate StepOk(db: Db, content: Content, user: int, s: Session, cmd: Command, r: Outcome)
  {
    && StoreOk(r.db, content) && SessionOk(r.db, user, r.session)
    && (forall u, t :: u != user && SessionOk(db, u, t) ==> SessionOk(r.db, u, t))
    && if r.ok && !cmd.Cd? then
         Target(s, cmd).Some? && ChangesOnly(db, r.db, Key(user, Target(s, cmd).value), NewEntry(cmd, content))
       else SameView(db, r.db)
  }

  lemma LastNameHasNoSlash(p: string)
    ensures '/' !in LastName(p)
  {
  }

  // The parts of the invariant that do not look at the counts.
  ghost predicate RestOk(db: Db, content: Content)
  {
    IdsOk(db) && TreeOk(db.paths) && LinksOk(db) && BlobsOk(db, content)
  }

  lemma NewRowKeepsRest(db: Db, content: Content, k: Key, s: Session, name: string, fileId: Option<int>, isDir: bool)
    requires RestOk(db, content) && SessionOk(db, k.user, s)
    requires if isDir then fileId == None else fileId.Some? && fileId.value in db.files
    requires k !in db.paths && ValidName(name) && '/' !in name && k.path == Join(s.path, name)
    ensures RestOk(WithRow(db, k, fileId, s.dirId, name, isDir), content)
  {
    NewRowKeepsTreeIff(db, k, fileId, s, name, isDir);
    NewRowKeepsIds(db, k, fileId, s.dirId, name, isDir);
  }

  lemma NewRowKeepsSessions(db: Db, k: Key, fileId: Option<int>, parentId: int, name: string, isDir: bool)
    requires k !in db.paths
    ensures KeepsSessions(db, WithRow(db, k, fileId, parentId, name, isDir))
  {
  }

  lemma NewRowView(db: Db, content: Content, k: Key, fileId: Option<int>, parentId: int, name: string, isDir: bool)
    requires BlobsOk(db, content) && k !in db.paths && (fileId.Some? ==> fileId.value in db.files)
    ensures ChangesOnly(db, WithRow(db, k, fileId, parentId, name, isDir), k,
                        match fileId case None => Some(Dir) case Some(f) => Some(File(content(db.files[f].sha))))
  {
  }

  // Counting does not touch anything else.
  lemma AddRefKeepsRest(db: Db, content: Content, f: int)
    ensures RestOk(db, content) ==> RestOk(AddRef(db, f), content)
    ensures SameView(db, AddRef(db, f)) && KeepsSessions(db, AddRef(db, f))
  {
  }

  // A new file row over a complete blob.
  lemma InsertFileKeepsRest(db: Db, content: Content, sha: string)
    requires RestOk(db, content) && FindSha(db, sha) == None
    requires sha in db.blobs && db.blobs[sha] == content(sha)
    ensures var db' := InsertFile(db, sha, |content(sha)|);
            RestOk(db', content) && SameView(db, db') && KeepsSessions(db, db')
  {
  }

  lemma LinkKeepsStore(db: Db, content: Content, k: Key, s: Session, name: string, f: int)
    requires StoreOk(db, content) && SessionOk(db, k.user, s) && f in db.files
    requires k !in db.paths && ValidName(name) && '/' !in name && k.path == Join(s.path, name)
    ensures var db' := AddRef(WithRow(db, k, Some(f), s.dirId, name, false), f);
            && StoreOk(db', content) && KeepsSessions(db, db')
            && ChangesOnly(db, db', k, Some(File(content(db.files[f].sha))))
  {
    hide IdsOk, TreeOk, LinksOk, CountsOk, BlobsOk, SessionOk, Look;
    var db1 := WithRow(db, k, Some(f), s.dirId, name, false);
    NewRowKeepsRest(db, content, k, s, name, Some(f), false);
    NewRowKeepsSessions(db, k, Some(f), s.dirId, name, false);
    NewRowView(db, content, k, Some(f), s.dirId, name, false);
    AddRefKeepsRest(db1, content, f);
    LinkKeepsCounts(db, k, s, name, f);
  }

  lemma FirstLinkKeepsStore(db: Db, content: Content, k: Key, s: Session, name: string, sha: string)
    requires StoreOk(db, content) && SessionOk(db, k.user, s)
    requires k !in db.paths && ValidName(name) && '/' !in name && k.path == Join(s.path, name)
    requires FindSha(db, sha) == None && sha in db.blobs && db.blobs[sha] == content(sha)
    ensures var db' := WithRow(InsertFile(db, sha, |content(sha)|), k, Some(db.nextFile), s.dirId, name, false);
            && StoreOk(db', content) && KeepsSessions(db, db')
            && ChangesOnly(db, db', k, Some(File(content(sha))))
  {
    hide IdsOk, TreeOk, LinksOk, CountsOk, BlobsOk, SessionOk, Look;
    var db1 := InsertFile(db, sha, |content(sha)|);
    InsertFileKeepsRest(db, content, sha);
    NewRowKeepsRest(db1, content, k, s, name, Some(db.nextFile), false);
    NewRowKeepsSessions(db1, k, Some(db.nextFile), s.dirId, name, false);
    NewRowView(db1, content, k, Some(db.nextFile), s.dirId, name, false);
    FirstLinkKeepsCounts(db, k, s, name, sha, |content(sha)|);
  }

  lemma MkdirStep(db: Db, content: Content, user: int, s: Session, arg: string)
    requires StoreOk(db, content) && SessionOk(db, user, s) && Proper(db, s, Mkdir(arg), content)
    ensures StepOk(db, content, user, s, Mkdir(arg), ExecMkdir(db, user, s, arg))
  {
    hide IdsOk, TreeOk, LinksOk, CountsOk, BlobsOk, SessionOk, Look;
    var r := ExecMkdir(db, user, s, arg);
    if r.ok {
      var k := Key(user, Target(s, Mkdir(arg)).value);
      var name := LastName(k.path);
      LastNameHasNoSlash(k.path);
      NewRowKeepsRest(db, content, k, s, name, None, true);
      NewRowKeepsSessions(db, k, None, s.dirId, name, true);
      NewRowView(db, content, k, None, s.dirId, name, true);
      DirKeepsCounts(db, k, s.dirId, name);
    }
  }

  // A blob may be created or extended as long as it stays the beginning of its content, and
  // is left alone once a file row vouches for it.
  lemma BlobWriteKeepsStore(db: Db, content: Content, h: string, blob: Bytes)
    requires StoreOk(db, content) && blob <= content(h)
    requires FindSha(db, h) == None || blob == content(h)
    ensures var db' := db.(blobs := db.blobs[h := blob]);
            StoreOk(db', content) && SameView(db, db') && KeepsSessions(db, db') && FindSha(db', h) == FindSha(db, h)
  {
    hide TreeOk;
    var db' := db.(blobs := db.blobs[h := blob]);
    assert BlobsOk(db', content);
  }

  lemma TouchStep(db: Db, content: Content, user: int, s: Session, arg: string)
    requires StoreOk(db, content) && SessionOk(db, user, s) && Proper(db, s, Touch(arg), content)
    requires content(EMPTY_SHA) == []
    ensures StepOk(db, content, user, s, Touch(arg), ExecTouch(db, user, s, arg))
  {
    hide IdsOk, TreeOk, LinksOk, CountsOk, BlobsOk, SessionOk, Look;
    var t := Target(s, Touch(arg));
    if t.Some? && ValidName(LastName(t.value)) && GetNode(db, Key(user, t.value)) == None {
      var k, name := Key(user, t.value), LastName(t.value);
      LastNameHasNoSlash(k.path);
      EmptyBlob(db, content);
      BlobWriteKeepsStore(db, content, EMPTY_SHA, []);
      assert WithEmptyBlob(db) == db.(blobs := db.blobs[EMPTY_SHA := []]);
      hide StoreOk;
      EmptyLink(WithEmptyBlob(db), content, k, s, name);
    }
  }

  lemma EmptyLink(db: Db, content: Content, k: Key, s: Session, name: string)
    requires StoreOk(db, content) && SessionOk(db, k.user, s) && content(EMPTY_SHA) == [] && EMPTY_SHA in db.blobs
    requires k !in db.paths && |k.path| <= MAX_PATH_COLUMN
    requires ValidName(name) && '/' !in name && k.path == Join(s.path, name)
    ensures var (db', ok) := LinkEmptyFile(db, k, s, name);
            && ok && StoreOk(db', content) && KeepsSessions(db, db')
            && ChangesOnly(db, db', k, Some(File([])))
  {
    hide SessionOk, StoreOk, KeepsSessions, ChangesOnly;
    EmptyBlob(db, content);
    match FindSha(db, EMPTY_SHA)
    case Some(f) => LinkKeepsStore(db, content, k, s, name, f);
    case None => FirstLinkKeepsStore(db, content, k, s, name, EMPTY_SHA);
  }

  lemma EmptyBlob(db: Db, content: Content)
    requires StoreOk(db, content) && content(EMPTY_SHA) == []
    ensures EMPTY_SHA in db.blobs ==> db.blobs[EMPTY_SHA] == []
  {
  }

  // Taking away a file's path row, and the file with it when that was the last one.
  lemma UnlinkKeepsStore(db: Db, content: Content, k: Key, f: int)
    requires StoreOk(db, content) && k in db.paths && db.paths[k].fileId == Some(f)
    ensures var db' := Release(db.(paths := db.paths - {k}), f);
            f in db.files && StoreOk(db', content) && KeepsSessions(db, db') && ChangesOnly(db, db', k, None)
  {
    var db' := Release(db.(paths := db.paths - {k}), f);
    assert !db.paths[k].isDir && f in db.files;
    UnlinkKeepsCounts(db, k, f);
    DroppedRowKeepsTree(db, k);
    UnlinkKeepsRest(db, content, k, f);
  }

  lemma UnlinkKeepsRest(db: Db, content: Content, k: Key, f: int)
    requires IdsOk(db) && LinksOk(db) && BlobsOk(db, content)
    requires k in db.paths && db.paths[k].fileId == Some(f) && !db.paths[k].isDir && f in db.files
    requires var db' := Release(db.(paths := db.paths - {k}), f);
             f !in db'.files ==> Refs(db'.paths, f) == {}
    ensures var db' := Release(db.(paths := db.paths - {k}), f);
            && IdsOk(db') && LinksOk(db') && BlobsOk(db', content)
            && KeepsSessions(db, db') && ChangesOnly(db, db', k, None)
  {
    hide SessionOk, IdsOk;
    var db' := Release(db.(paths := db.paths - {k}), f);
    forall l | l in db'.paths && db'.paths[l].fileId == Some(f)
      ensures f in db'.files
    {
      assert l in Refs(db'.paths, f);
    }
    UnlinkKeepsIds(db, k, f);
    FileUnlinkKeepsSessions(db, k, f);
  }

  lemma UnlinkKeepsIds(db: Db, k: Key, f: int)
    requires IdsOk(db)
    ensures var db' := Release(db.(paths := db.paths - {k}), f);
            && IdsOk(db')
            && (forall g, h :: g in db.files && h in db.files && db.files[g].sha == db.files[h].sha ==> g == h)
  {
  }

  lemma FileUnlinkKeepsSessions(db: Db, k: Key, f: int)
    requires k in db.paths && !db.paths[k].isDir
    ensures KeepsSessions(db, Release(db.(paths := db.paths - {k}), f))
  {
  }

  lemma RmStep(db: Db, content: Content, user: int, s: Session, arg: string)
    requires StoreOk(db, content) && SessionOk(db, user, s)
    ensures StepOk(db, content, user, s, Rm(arg), ExecRm(db, user, s, arg))
  {
    hide IdsOk, TreeOk, CountsOk, BlobsOk, SessionOk, Look;
    var t := Target(s, Rm(arg));
    if t.Some? {
      var k := Key(user, t.value);
      if GetNode(db, k).Some? && !GetNode(db, k).value.1 {
        UnlinkKeepsStore(db, content, k, db.paths[k].fileId.value);
      }
    }
  }

  lemma DropDirKeepsRest(db: Db, content: Content, k: Key)
    requires IdsOk(db) && LinksOk(db) && CountsOk(db) && BlobsOk(db, content) && k in db.paths && db.paths[k].isDir
    ensures var db' := db.(paths := db.paths - {k});
            && IdsOk(db') && LinksOk(db') && CountsOk(db') && BlobsOk(db', content)
            && ChangesOnly(db, db', k, None)
  {
    var db' := db.(paths := db.paths - {k});
    forall g | g in db.files
      ensures Refs(db'.paths, g) == Refs(db.paths, g)
    {
      RefsWithoutRow(db.paths, k, g);
    }
  }

  // A session keeps standing in its directory unless that very directory's row is dropped.
  lemma DropKeepsSessionIff(db: Db, k: Key, user: int, s: Session)
    requires SessionOk(db, user, s) && k.path != "/" && IdsOk(db)
    ensures SessionOk(db.(paths := db.paths - {k}), user, s) <==> Key(user, s.path) != k
  {
  }

  lemma RmdirStep(db: Db, content: Content, user: int, s: Session, arg: string)
    requires StoreOk(db, content) && SessionOk(db, user, s) && Proper(db, s, Rmdir(arg), content)
    ensures StepOk(db, content, user, s, Rmdir(arg), ExecRmdir(db, user, s, arg))
  {
    hide TreeOk, LinksOk, CountsOk, BlobsOk, SessionOk, Look;
    var t := Target(s, Rmdir(arg));
    if t.Some? && ExecRmdir(db, user, s, arg).ok {
      var k := Key(user, t.value);
      RootHasNoRow(db, user);
      if k in db.paths {
        DroppedRowKeepsTree(db, k);
        DropDirKeepsRest(db, content, k);
        assert k.path != "/";
        forall u, t | SessionOk(db, u, t) && Key(u, t.path) != k
          ensures SessionOk(db.(paths := db.paths - {k}), u, t)
        {
          DropKeepsSessionIff(db, k, u, t);
        }
      } else {
        assert db.paths - {k} == db.paths;
        LookAtRoot(db, k);
      }
    }
  }

  lemma RootHasNoRow(db: Db, user: int)
    requires TreeOk(db.paths)
    ensures Key(user, "/") !in db.paths
  {
  }

  lemma LookAtRoot(db: Db, k: Key)
    requires k !in db.paths
    ensures ChangesOnly(db, db, k, None)
  {
  }

  lemma CdStep(db: Db, content: Content, user: int, s: Session, arg: string)
    requires StoreOk(db, content) && SessionOk(db, user, s)
    ensures StepOk(db, content, user, s, Cd(arg), ExecCd(db, user, s, arg))
    ensures ExecCd(db, user, s, arg).db == db
  {
  }

  lemma UploadStep(db: Db, content: Content, k: Key, s: Session, name: string, cmd: Command)
    requires cmd.Puts? && StoreOk(db, content) && SessionOk(db, k.user, s) && Honest(db, cmd, content)
    requires FindSha(db, cmd.hash) == None && |k.path| <= MAX_PATH_COLUMN
    requires k !in db.paths && ValidName(name) && '/' !in name && k.path == Join(s.path, name)
    ensures var r := Upload(db, k, s, name, cmd);
            var complete := |Received(db, cmd.hash, cmd.size, cmd.stream)| == cmd.size;
            && StoreOk(r.db, content) && KeepsSessions(db, r.db) && r.session == s
            && (r.ok <==> complete && cmd.registered)
            && if complete then ChangesOnly(db, r.db, k, Some(File(content(cmd.hash)))) else SameView(db, r.db)
  {
    hide IdsOk, TreeOk, LinksOk, CountsOk, BlobsOk, SessionOk, Look;
    var blob := Received(db, cmd.hash, cmd.size, cmd.stream);
    var db1 := db.(blobs := db.blobs[cmd.hash := blob]);
    ReceivedIsPrefix(db, content, cmd);
    BlobWriteKeepsStore(db, content, cmd.hash, blob);
    if |blob| >= cmd.size {
      FirstLinkKeepsStore(db1, content, k, s, name, cmd.hash);
    }
  }

  // A refusal or an instant upload is a good step; content is awaited for new content only.
  lemma OpenedStep(db: Db, content: Content, user: int, s: Session, cmd: Command)
    requires cmd.Puts? && StoreOk(db, content) && SessionOk(db, user, s) && Proper(db, s, cmd, content)
    ensures match Opened(db, user, s, cmd.arg, cmd.size, cmd.hash)
            case Settled(db', ok, _) => StepOk(db, content, user, s, cmd, Outcome(db', s, ok))
            case Awaiting(k, name) =>
              && Target(s, cmd) == Some(k.path) && k.user == user && k !in db.paths && FindSha(db, cmd.hash) == None
              && ValidName(name) && '/' !in name && k.path == Join(s.path, name)
  {
    hide StoreOk, SessionOk, Look, HasDotDot, LastName;
    var t := Target(s, cmd);
    if t.Some? && ValidName(LastName(t.value)) && GetNode(db, Key(user, t.value)) == None && cmd.hash != "" {
      SessionPathNonEmpty(db, content, user, s);
      TransferTarget(s, cmd);
      match FindSha(db, cmd.hash)
      case Some(f) =>
        FileRowsAreReady(db, content, f);
        LinkKeepsStore(db, content, Key(user, t.value), s, LastName(t.value), f);
      case None =>
    }
  }

  lemma PutsStep(db: Db, content: Content, user: int, s: Session, cmd: Command)
    requires cmd.Puts? && StoreOk(db, content) && SessionOk(db, user, s) && Proper(db, s, cmd, content)
    ensures StepOk(db, content, user, s, cmd, ExecPuts(db, user, s, cmd))
  {
    hide StoreOk, SessionOk, Look, Opened, Upload, Target, ChangesOnly;
    OpenedStep(db, content, user, s, cmd);
    match Opened(db, user, s, cmd.arg, cmd.size, cmd.hash)
    case Settled(_, _, _) =>
    case Awaiting(k, name) =>
      UploadStep(db, content, k, s, name, cmd);
  }

  lemma TransferTarget(s: Session, cmd: Command)
    requires cmd.Puts? && Target(s, cmd).Some? && s.path != ""
    ensures var target := Target(s, cmd).value;
            LastName(target) == cmd.arg && '/' !in cmd.arg && target == Join(s.path, cmd.arg)
  {
    JoinSplits(s.path, cmd.arg);
  }

  lemma SessionPathNonEmpty(db: Db, content: Content, user: int, s: Session)
    requires StoreOk(db, content) && SessionOk(db, user, s)
    ensures s.path != "" && s.path[0] == '/'
  {
    if s.dirId != 0 {
      RowPathStarts(db.paths, Key(user, s.path));
    }
  }

  lemma FileRowsAreReady(db: Db, content: Content, f: int)
    requires StoreOk(db, content) && f in db.files
    ensures StoreReady(db, f)
  {
  }

  // Whatever arrives before the connection ends, the blob at rest is the beginning of the
  // content, and it is complete when, and only when, the announced size is reached.
  lemma ReceivedIsPrefix(db: Db, content: Content, cmd: Command)
    requires cmd.Puts? && StoreOk(db, content) && Honest(db, cmd, content)
    ensures var blob := Received(db, cmd.hash, cmd.size, cmd.stream);
            blob <= content(cmd.hash) && (blob == content(cmd.hash) <==> |blob| >= cmd.size)
  {
  }

  // An interrupted upload is carried on where it stopped: what came in is what the server
  // has more of when it next answers with an offset.
  lemma InterruptedUploadResumes(db: Db, content: Content, user: int, s: Session, cmd: Command)
    requires cmd.Puts? && StoreOk(db, content) && SessionOk(db, user, s) && Proper(db, s, cmd, content)
    requires Target(s, cmd).Some? && cmd.hash != "" && FindSha(db, cmd.hash) == None
    requires ValidName(LastName(Target(s, cmd).value)) && GetNode(db, Key(user, Target(s, cmd).value)) == None
    requires !ExecPuts(db, user, s, cmd).ok
    ensures var before := Stored(db, cmd.hash, cmd.size);
            var after := Stored(ExecPuts(db, user, s, cmd).db, cmd.hash, cmd.size);
            after == before + cmd.stream && |after| < cmd.size
  {
  }

  // Whoever the sender is, a file row appears only over a blob of the announced size.
  lemma FileRowNeedsWholeBlob(db: Db, user: int, s: Session, cmd: Command)
    requires cmd.Puts? && FindSha(db, cmd.hash) == None
    ensures var after := ExecPuts(db, user, s, cmd).db;
            FindSha(after, cmd.hash).Some? ==>
              && cmd.hash in after.blobs && |after.blobs[cmd.hash]| == cmd.size
              && StoreReady(after, FindSha(after, cmd.hash).value)
  {
  }

  lemma StepKeepsStore(db: Db, content: Content, user: int, s: Session, cmd: Command)
    requires StoreOk(db, content) && SessionOk(db, user, s) && Proper(db, s, cmd, content)
    requires content(EMPTY_SHA) == []
    ensures StepOk(db, content, user, s, cmd, Exec(db, user, s, cmd))
  {
    match cmd
    case Cd(arg) => CdStep(db, content, user, s, arg);
    case Mkdir(arg) => MkdirStep(db, content, user, s, arg);
    case Touch(arg) => TouchStep(db, content, user, s, arg);
    case Rm(arg) => RmStep(db, content, user, s, arg);
    case Rmdir(arg) => RmdirStep(db, content, user, s, arg);
    case Puts(_, _, _, _, _) => PutsStep(db, content, user, s, cmd);
  }
}
