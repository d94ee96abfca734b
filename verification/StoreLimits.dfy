// Where the commands stop keeping the store: the exact conditions, and inputs that meet them.
module StoreLimits {
  import opened Wrappers
  import opened VirtualPath
  import opened Tables
  import opened Commands
  import opened StoreInvariants
  import opened StoreSteps
  import opened StoreCounts
  import opened StoreRuns

  // A successful mkdir keeps the tree if, and only if, the new directory goes directly under
  // the current one: the parent id is always the current directory's.
  lemma MkdirKeepsTreeIff(db: Db, user: int, s: Session, arg: string)
    requires IdsOk(db) && TreeOk(db.paths) && SessionOk(db, user, s) && ExecMkdir(db, user, s, arg).ok
    ensures var target := Target(s, Mkdir(arg)).value;
            TreeOk(ExecMkdir(db, user, s, arg).db.paths) <==> target == Join(s.path, LastName(target))
  {
    hide TreeOk, IdsOk, LastSlash, SessionOk;
    var target := Target(s, Mkdir(arg)).value;
    LastNameHasNoSlash(target);
    NewRowKeepsTreeIff(db, Key(user, target), None, s, LastName(target), true);
  }

  // One user with one directory, /a.
  const ONE_DIRECTORY := Db(map[Key(1, "/a") := PathRow(1, None, 0, "a", true)], map[], map[], 2, 1)

  lemma OneDirectoryIsFine()
    ensures IdsOk(ONE_DIRECTORY) && TreeOk(ONE_DIRECTORY.paths) && SessionOk(ONE_DIRECTORY, 1, Session("/", 0))
  {
    assert RowOk(ONE_DIRECTORY.paths, Key(1, "/a"));
  }

  lemma NestedName()
    ensures BuildAbsPath("/", "a/b") == "/a/b" && LastName("/a/b") == "b" && Join("/", "b") == "/b" != "/a/b"
  {
    assert "/a/b" == Join("/a", "b");
    JoinSplits("/a", "b");
    hide LastName;
    assert "a/b"[0] == 'a';
  }

  // mkdir a/b from the root, with /a there: the row for /a/b is filed under the root.
  lemma NestedMkdirBreaksTree()
    ensures var r := ExecMkdir(ONE_DIRECTORY, 1, Session("/", 0), "a/b");
            TreeOk(ONE_DIRECTORY.paths) && r.ok && !TreeOk(r.db.paths)
  {
    hide IdsOk, TreeOk, SessionOk, LastName;
    OneDirectoryIsFine();
    NestedName();
    MkdirKeepsTreeIff(ONE_DIRECTORY, 1, Session("/", 0), "a/b");
  }

  // touch files its row in the same way.
  lemma TouchKeepsTreeIff(db: Db, user: int, s: Session, arg: string)
    requires IdsOk(db) && TreeOk(db.paths) && SessionOk(db, user, s) && ExecTouch(db, user, s, arg).ok
    ensures var target := Target(s, Touch(arg)).value;
            TreeOk(ExecTouch(db, user, s, arg).db.paths) <==> target == Join(s.path, LastName(target))
  {
    hide TreeOk, IdsOk, LastSlash, SessionOk;
    var target := Target(s, Touch(arg)).value;
    var db1 := WithEmptyBlob(db);
    var f := match FindSha(db1, EMPTY_SHA) case Some(f) => f case None => db1.nextFile;
    LastNameHasNoSlash(target);
    NewRowKeepsTreeIff(db, Key(user, target), Some(f), s, LastName(target), false);
  }

  lemma NestedTouchBreaksTree()
    ensures var r := ExecTouch(ONE_DIRECTORY, 1, Session("/", 0), "a/b");
            TreeOk(ONE_DIRECTORY.paths) && r.ok && !TreeOk(r.db.paths)
  {
    hide IdsOk, TreeOk, SessionOk, LastName;
    OneDirectoryIsFine();
    NestedName();
    assert FindSha(WithEmptyBlob(ONE_DIRECTORY), EMPTY_SHA) == None;
    TouchKeepsTreeIff(ONE_DIRECTORY, 1, Session("/", 0), "a/b");
  }

  // A successful rmdir leaves the session in an existing directory if, and only if, it did
  // not name that directory itself (the root is never dropped).
  lemma RmdirKeepsSessionIff(db: Db, content: Content, user: int, s: Session, arg: string)
    requires StoreOk(db, content) && SessionOk(db, user, s) && ExecRmdir(db, user, s, arg).ok
    ensures var target := Target(s, Rmdir(arg)).value;
            SessionOk(ExecRmdir(db, user, s, arg).db, user, s) <==> target != s.path || target == "/"
  {
  }

  // ---------------------------------------------------------------- reached from nothing

  const MAKE_A := Request(1, Mkdir("a"), NewConnection)
  const GO_TO_A := Request(1, Cd("a"), Same)

  lemma AfterMakingA(content: Content)
    ensures var w := Next(EMPTY_WORLD, MAKE_A, content);
            w.db == ONE_DIRECTORY && SessionOf(w, 1) == Session("/", 0)
    ensures ProperLogin(EMPTY_WORLD, MAKE_A) && Proper(EMPTY_WORLD.db, Session("/", 0), Mkdir("a"), content)
  {
    JoinSplits("/", "a");
    assert BuildAbsPath("/", "a") == Join("/", "a") == "/a";
  }

  lemma AfterGoingToA(w: World, content: Content)
    requires w.db == ONE_DIRECTORY && SessionOf(w, 1) == Session("/", 0)
    ensures var w' := Next(w, GO_TO_A, content);
            w'.db == ONE_DIRECTORY && SessionOf(w', 1) == Session("/a", 1)
    ensures Proper(w.db, Session("/", 0), Cd("a"), content)
  {
    assert BuildAbsPath("/", "a") == "/a";
    assert GetNode(ONE_DIRECTORY, Key(1, "/a")) == Some((1, true));
  }

  // The first user makes a directory and goes there.
  lemma StandingInA(content: Content)
    requires content(EMPTY_SHA) == []
    ensures var w := Run(EMPTY_WORLD, [MAKE_A, GO_TO_A], content);
            && ProperRun(EMPTY_WORLD, [MAKE_A, GO_TO_A], content) && WorldOk(w, content)
            && w.db == ONE_DIRECTORY && SessionOf(w, 1) == Session("/a", 1)
  {
    hide Next, Proper, WorldOk;
    var w1 := Next(EMPTY_WORLD, MAKE_A, content);
    var w2 := Next(w1, GO_TO_A, content);
    AfterMakingA(content);
    AfterGoingToA(w1, content);
    var rs := [MAKE_A, GO_TO_A];
    assert rs[1..] == [GO_TO_A] && rs[1..][1..] == [];
    assert ProperRun(w2, [], content) && Run(w2, [], content) == w2;
    assert ProperRun(w1, rs[1..], content) && Run(w1, rs[1..], content) == w2;
    EmptyWorldOk(content);
    RunKeepsWorld(EMPTY_WORLD, rs, content);
  }

  // Then, by its absolute path, removes that very directory, and stands nowhere.
  lemma RmdirOfOwnDirectoryStrandsSession(content: Content)
    requires content(EMPTY_SHA) == []
    ensures var w := Run(EMPTY_WORLD, [MAKE_A, GO_TO_A], content);
            var r := Exec(w.db, 1, SessionOf(w, 1), Rmdir("/a"));
            && ProperRun(EMPTY_WORLD, [MAKE_A, GO_TO_A], content)
            && r.ok && r.session == Session("/a", 1) && !SessionOk(r.db, 1, r.session)
  {
    hide Run, ProperRun, WorldOk;
    StandingInA(content);
    assert GetNode(ONE_DIRECTORY, Key(1, "/a")) == Some((1, true)) && IsDirEmpty(ONE_DIRECTORY, 1, 1);
  }

  // As long as a name can be.
  const LONG_NAME := "abcdefghijabcdefghijabcdefghij"

  function Deep(k: nat): (p: string)
    ensures |p| == (if k == 0 then 1 else 31 * k) && p != ""
  {
    if k == 0 then "/" else Join(Deep(k - 1), LONG_NAME)
  }

  // mkdir and cd, k times.
  ghost function DeepWorld(k: nat, content: Content): World
  {
    if k == 0 then EMPTY_WORLD
    else Next(Next(DeepWorld(k - 1, content), Request(1, Mkdir(LONG_NAME), Same), content),
              Request(1, Cd(LONG_NAME), Same), content)
  }

  // The user stands at Deep(k), and nothing lies deeper.
  ghost predicate StandsDeep(w: World, k: nat)
  {
    && SessionOf(w, 1).path == Deep(k) && w.db.files == map[] && w.db.blobs == map[]
    && forall l :: l in w.db.paths ==> |l.path| <= |Deep(k)|
  }

  lemma DeepMkdir(w: World, k: nat, content: Content)
    requires k < 8 && StandsDeep(w, k)
    ensures var r := Exec(w.db, 1, SessionOf(w, 1), Mkdir(LONG_NAME));
            && Proper(w.db, SessionOf(w, 1), Mkdir(LONG_NAME), content)
            && r.session == SessionOf(w, 1) && r.db.files == map[] && r.db.blobs == map[]
            && Key(1, Deep(k + 1)) in r.db.paths && r.db.paths[Key(1, Deep(k + 1))].isDir
            && forall l :: l in r.db.paths ==> |l.path| <= |Deep(k + 1)|
  {
    hide LastName, ValidName;
    JoinSplits(Deep(k), LONG_NAME);
    LongNameIsValid();
    assert BuildAbsPath(Deep(k), LONG_NAME) == Deep(k + 1) && Key(1, Deep(k + 1)) !in w.db.paths;
  }

  lemma DeepStep(w: World, k: nat, content: Content)
    requires k < 8 && StandsDeep(w, k)
    ensures var mkdir, cd := Request(1, Mkdir(LONG_NAME), Same), Request(1, Cd(LONG_NAME), Same);
            var w1 := Next(w, mkdir, content);
            && Proper(w.db, SessionOf(w, 1), mkdir.cmd, content) && Proper(w1.db, SessionOf(w1, 1), cd.cmd, content)
            && StandsDeep(Next(w1, cd, content), k + 1)
  {
    hide Exec, Proper;
    DeepMkdir(w, k, content);
    DeepCd(Next(w, Request(1, Mkdir(LONG_NAME), Same), content).db, SessionOf(w, 1), k, content);
  }

  lemma DeepCd(db: Db, s: Session, k: nat, content: Content)
    requires k < 8 && s.path == Deep(k) && Key(1, Deep(k + 1)) in db.paths && db.paths[Key(1, Deep(k + 1))].isDir
    ensures var r := Exec(db, 1, s, Cd(LONG_NAME));
            Proper(db, s, Cd(LONG_NAME), content) && r.db == db && r.session.path == Deep(k + 1)
  {
    assert BuildAbsPath(Deep(k), LONG_NAME) == Deep(k + 1);
  }

  lemma LongNameIsValid()
    ensures ValidName(LONG_NAME) && TransferArg(LONG_NAME)
  {
  }

  lemma {:induction false} DeepIsReached(k: nat, content: Content)
    requires k <= 8 && content(EMPTY_SHA) == []
    ensures WorldOk(DeepWorld(k, content), content) && StandsDeep(DeepWorld(k, content), k)
  {
    if k == 0 {
      EmptyWorldOk(content);
    } else {
      hide WorldOk, Next, Proper, StandsDeep;
      var w := DeepWorld(k - 1, content);
      DeepIsReached(k - 1, content);
      DeepStep(w, k - 1, content);
      NextKeepsWorld(w, Request(1, Mkdir(LONG_NAME), Same), content);
      NextKeepsWorld(Next(w, Request(1, Mkdir(LONG_NAME), Same), content), Request(1, Cd(LONG_NAME), Same), content);
    }
  }

  // Eight directories down, an honest upload to a path of 279 characters fails, and leaves a
  // file row of count 1 that no path names.
  lemma LongUploadLosesCount(hash: string, content: Content)
    requires content(EMPTY_SHA) == [] && hash != ""
    ensures var w := DeepWorld(8, content);
            var s := SessionOf(w, 1);
            var cmd := Puts(LONG_NAME, |content(hash)|, hash, content(hash), true);
            && WorldOk(w, content) && |Join(s.path, LONG_NAME)| == 279 && Honest(w.db, cmd, content)
            && !CountsOk(Exec(w.db, 1, s, cmd).db)
  {
    hide WorldOk, StandsDeep, TablesOk, Orphans, Honest, Exec;
    var w := DeepWorld(8, content);
    var s := SessionOf(w, 1);
    DeepIsReached(8, content);
    WorldTables(w, content);
    DeepUploadOrphans(w, hash, content);
    CountsStepIff(w.db, 1, s, Puts(LONG_NAME, |content(hash)|, hash, content(hash), true));
  }

  lemma WorldTables(w: World, content: Content)
    requires WorldOk(w, content)
    ensures TablesOk(w.db)
  {
    forall k | k in w.db.paths
      ensures k.path != "/"
    {
      RootHasNoRow(w.db, k.user);
    }
  }

  lemma DeepUploadOrphans(w: World, hash: string, content: Content)
    requires StandsDeep(w, 8) && hash != ""
    ensures var s := SessionOf(w, 1);
            var cmd := Puts(LONG_NAME, |content(hash)|, hash, content(hash), true);
            |Join(s.path, LONG_NAME)| == 279 && Honest(w.db, cmd, content) && Orphans(w.db, 1, s, cmd)
  {
    hide LastName, ValidName, TransferArg;
    var s := SessionOf(w, 1);
    var none: Bytes := [];
    LongNameIsValid();
    JoinSplits(s.path, LONG_NAME);
    assert Stored(w.db, hash, |content(hash)|) == none;
    assert none + content(hash) == content(hash) && content(hash)[0..] == content(hash);
    assert FindSha(w.db, hash) == None;
  }
}
