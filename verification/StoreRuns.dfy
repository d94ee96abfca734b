// Whole runs: any number of users, any sequence of commands and new logins.
module StoreRuns {
  import opened Wrappers
  import opened VirtualPath
  import opened Tables
  import opened Commands
  import opened StoreInvariants
  import opened StoreSteps
  import opened StoreCounts

  // Where the session of a command comes from: the connection the user already has, a login
  // on a new connection, or a login over the live session of `owner`, which ends that session.
  datatype Origin = Same | NewConnection | Over(owner: int)

  datatype Request = Request(user: int, cmd: Command, origin: Origin)

  // `drive` is what the users were told: for every path, the directory or the bytes of the
  // last successful command about it. It knows nothing of hashes, counts or blobs.
  datatype World = World(db: Db, sessions: map<int, Session>, drive: map<Key, Entry>)

  const EMPTY_WORLD := World(Db(map[], map[], map[], 1, 1), map[], map[])

  // A fresh login stands in the root.
  function SessionOf(w: World, user: int): Session
  {
    if user in w.sessions then w.sessions[user] else Session("/", 0)
  }

  function SessionFor(w: World, r: Request): Session
  {
    match r.origin
    case Same => SessionOf(w, r.user)
    case NewConnection => AfterLogin(LOGGED_OUT, Session("/", 0), Some(r.user)).1
    case Over(owner) => AfterLogin(owner, SessionOf(w, owner), Some(r.user)).1
  }

  ghost function TellDrive(drive: map<Key, Entry>, user: int, s: Session, cmd: Command, content: Content)
    : map<Key, Entry>
  {
    match Target(s, cmd)
    case None => drive
    case Some(target) =>
      if cmd.Cd? then drive
      else match NewEntry(cmd, content)
        case Some(e) => drive[Key(user, target) := e]
        case None => drive - {Key(user, target)}
  }

  ghost function Next(w: World, r: Request, content: Content): World
  {
    var s := SessionFor(w, r);
    var out := Exec(w.db, r.user, s, r.cmd);
    World(out.db, (if r.origin.Over? then w.sessions - {r.origin.owner} else w.sessions)[r.user := out.session],
          if out.ok then TellDrive(w.drive, r.user, s, r.cmd, content) else w.drive)
  }

  ghost function Run(w: World, rs: seq<Request>, content: Content): World
    decreases |rs|
  {
    if rs == [] then w else Run(Next(w, rs[0], content), rs[1..], content)
  }

  // A login over a live session is good when it is the same user again, or at the root.
  predicate ProperLogin(w: World, r: Request)
  {
    r.origin.Over? ==>
      r.origin.owner == r.user || r.origin.owner == LOGGED_OUT || SessionOf(w, r.origin.owner).dirId == 0
  }

  ghost predicate ProperRun(w: World, rs: seq<Request>, content: Content)
    decreases |rs|
  {
    rs == [] || (ProperLogin(w, rs[0]) && Proper(w.db, SessionFor(w, rs[0]), rs[0].cmd, content)
                 && ProperRun(Next(w, rs[0], content), rs[1..], content))
  }

  ghost predicate WorldOk(w: World, content: Content)
  {
    && StoreOk(w.db, content)
    && (forall u :: SessionOk(w.db, u, SessionOf(w, u)))
    && (forall k :: Look(w.db, k) == if k in w.drive then Some(w.drive[k]) else None)
  }

  lemma EmptyWorldOk(content: Content)
    ensures WorldOk(EMPTY_WORLD, content)
  {
  }

  lemma LoginStandsSomewhere(w: World, r: Request)
    requires ProperLogin(w, r) && forall u :: SessionOk(w.db, u, SessionOf(w, u))
    ensures SessionOk(w.db, r.user, SessionFor(w, r))
  {
    if r.origin.Over? {
      assert SessionOk(w.db, r.origin.owner, SessionOf(w, r.origin.owner));
    }
  }

  lemma RootIsAlwaysThere(db: Db, user: int)
    ensures SessionOk(db, user, Session("/", 0))
  {
  }

  lemma NextKeepsWorld(w: World, r: Request, content: Content)
    requires WorldOk(w, content) && content(EMPTY_SHA) == []
    requires ProperLogin(w, r) && Proper(w.db, SessionFor(w, r), r.cmd, content)
    ensures WorldOk(Next(w, r, content), content)
  {
    hide StoreOk, SessionOk, Look, Exec, Proper;
    LoginStandsSomewhere(w, r);
    StepKeepsStore(w.db, content, r.user, SessionFor(w, r), r.cmd);
    var w' := Next(w, r, content);
    forall u
      ensures SessionOk(w'.db, u, SessionOf(w', u))
    {
      assert SessionOk(w.db, u, SessionOf(w, u));
      RootIsAlwaysThere(w'.db, u);
    }
    forall k
      ensures Look(w'.db, k) == if k in w'.drive then Some(w'.drive[k]) else None
    {
      assert Look(w.db, k) == if k in w.drive then Some(w.drive[k]) else None;
    }
  }

  // Deduplication is invisible: after any run, every user sees exactly the drive they were
  // told about, the counts are right, and every session stands in an existing directory.
  lemma {:induction false} RunKeepsWorld(w: World, rs: seq<Request>, content: Content)
    requires WorldOk(w, content) && content(EMPTY_SHA) == [] && ProperRun(w, rs, content)
    ensures WorldOk(Run(w, rs, content), content)
    decreases |rs|
  {
    if rs != [] {
      NextKeepsWorld(w, rs[0], content);
      RunKeepsWorld(Next(w, rs[0], content), rs[1..], content);
    }
  }

  // Starting from nothing, every run keeps the tree, the links, the counts and the blobs.
  lemma EveryRunKeepsStore(rs: seq<Request>, content: Content)
    requires content(EMPTY_SHA) == [] && ProperRun(EMPTY_WORLD, rs, content)
    ensures StoreOk(Run(EMPTY_WORLD, rs, content).db, content)
  {
    EmptyWorldOk(content);
    RunKeepsWorld(EMPTY_WORLD, rs, content);
  }

  // Every upload of `rs` goes to a path that fits its column.
  ghost predicate UploadsFit(w: World, rs: seq<Request>, content: Content)
    decreases |rs|
  {
    rs == [] || ((rs[0].cmd.Puts? ==> |Join(SessionFor(w, rs[0]).path, rs[0].cmd.arg)| <= MAX_PATH_COLUMN)
                 && UploadsFit(Next(w, rs[0], content), rs[1..], content))
  }

  // Whoever sends what: lying about hashes and sizes, nested names, removing the directory
  // one stands in, logging in over each other. The counts, the links and the unique keys
  // stay right all the same.
  lemma {:induction false} CountsAlways(w: World, rs: seq<Request>, content: Content)
    requires TablesOk(w.db) && UploadsFit(w, rs, content)
    ensures TablesOk(Run(w, rs, content).db)
    decreases |rs|
  {
    hide TablesOk, Exec, Orphans;
    if rs != [] {
      var s := SessionFor(w, rs[0]);
      CountsStepIff(w.db, rs[0].user, s, rs[0].cmd);
      if rs[0].cmd.Puts? {
        ShortPathsNeverOrphan(w.db, rs[0].user, s, rs[0].cmd);
      } else {
        OnlyPutsOrphans(w.db, rs[0].user, s, rs[0].cmd);
      }
      CountsAlways(Next(w, rs[0], content), rs[1..], content);
    }
  }

  // No request in `rs` comes from this user about this path.
  ghost predicate LeavesAlone(w: World, rs: seq<Request>, k: Key, content: Content)
    decreases |rs|
  {
    rs == [] || (!(rs[0].user == k.user && Target(SessionFor(w, rs[0]), rs[0].cmd) == Some(k.path))
                 && LeavesAlone(Next(w, rs[0], content), rs[1..], k, content))
  }

  lemma {:induction false} DriveLeftAlone(w: World, rs: seq<Request>, k: Key, content: Content)
    requires LeavesAlone(w, rs, k, content)
    ensures k in Run(w, rs, content).drive <==> k in w.drive
    ensures k in w.drive ==> Run(w, rs, content).drive[k] == w.drive[k]
    decreases |rs|
  {
    if rs != [] {
      DriveLeftAlone(Next(w, rs[0], content), rs[1..], k, content);
    }
  }

  // Read your upload: once puts has answered with success, and until the user touches that
  // path again, a download from the same directory delivers the uploaded content, whatever
  // everybody else uploads or removes, the same content included.
  lemma UploadIsReadBack(w: World, puts: Request, rs: seq<Request>, content: Content, s: Session)
    requires WorldOk(w, content) && content(EMPTY_SHA) == [] && puts.cmd.Puts?
    requires ProperRun(w, [puts] + rs, content)
    requires Exec(w.db, puts.user, SessionFor(w, puts), puts.cmd).ok
    requires LeavesAlone(Next(w, puts, content), rs, Key(puts.user, Join(s.path, puts.cmd.arg)), content)
    requires s.path == SessionFor(w, puts).path
    ensures Download(Run(w, [puts] + rs, content).db, puts.user, s, puts.cmd.arg) == Some(content(puts.cmd.hash))
  {
    var w1 := Next(w, puts, content);
    var k := Key(puts.user, Join(s.path, puts.cmd.arg));
    assert ([puts] + rs)[1..] == rs;
    NextKeepsWorld(w, puts, content);
    RunKeepsWorld(w1, rs, content);
    DriveLeftAlone(w1, rs, k, content);
    assert Look(Run(w1, rs, content).db, k) == Some(File(content(puts.cmd.hash)));
  }

  // The same in the smallest case, spelled out: any content under any legal name, sent whole,
  // with the first command ever.
  lemma FirstUploadIsReadBack(user: int, name: string, hash: string, content: Content)
    requires content(EMPTY_SHA) == [] && hash != "" && TransferArg(name) && ValidName(name)
    ensures var puts := Request(user, Puts(name, |content(hash)|, hash, content(hash), true), NewConnection);
            && ProperRun(EMPTY_WORLD, [puts], content)
            && Exec(EMPTY_WORLD.db, user, SessionFor(EMPTY_WORLD, puts), puts.cmd).ok
            && Download(Run(EMPTY_WORLD, [puts], content).db, user, Session("/", 0), name) == Some(content(hash))
  {
    var puts := Request(user, Puts(name, |content(hash)|, hash, content(hash), true), NewConnection);
    EmptyWorldOk(content);
    FirstUploadSucceeds(user, name, hash, content);
    assert ProperRun(Next(EMPTY_WORLD, puts, content), [], content);
    assert [puts][1..] == [] && [puts] + [] == [puts];
    UploadIsReadBack(EMPTY_WORLD, puts, [], content, Session("/", 0));
  }

  lemma FirstUploadSucceeds(user: int, name: string, hash: string, content: Content)
    requires hash != "" && TransferArg(name) && ValidName(name)
    ensures var cmd := Puts(name, |content(hash)|, hash, content(hash), true);
            && Proper(EMPTY_WORLD.db, Session("/", 0), cmd, content)
            && Exec(EMPTY_WORLD.db, user, Session("/", 0), cmd).ok
  {
    hide HasDotDot, LastName;
    JoinSplits("/", name);
    assert content(hash)[0..] == content(hash);
    assert FindSha(EMPTY_WORLD.db, hash) == None;
  }

  // A user can always go up: the parent of a reachable current directory is a directory.
  lemma CdUpSucceeds(w: World, user: int, content: Content)
    requires WorldOk(w, content)
    ensures var s := SessionOf(w, user);
            var r := Exec(w.db, user, s, Cd(".."));
            r.ok && r.session.path == ParentPath(s.path)
  {
    var s := SessionOf(w, user);
    assert SessionOk(w.db, user, s);
    if s.dirId != 0 {
      ParentKey(w.db.paths, Key(user, s.path));
    }
  }
}
