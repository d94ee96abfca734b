// What two parties believe about one session: client and server about the current directory,
// the control connection and the transfer connection about the path that was authorised.
module SessionAgreement {
  import opened Wrappers
  import opened Limits
  import opened VirtualPath
  import opened Tables
  import opened Commands
  import opened StoreInvariants
  import opened StoreSteps
  import opened CommandSuccess
  import opened StoreRuns
  import opened StoreLimits
  import RangeRequest

  const CLIENT_PATH_BUFFER: nat := 256

  // ---------------------------------------------------------------- current directory

  // What the client will show after a successful cd.
  function ClientPathAfterCd(path: string, arg: string): string
    requires arg != ""
  {
    if arg == "." then path
    else
      var next := if arg == ".." then ParentPath(path) else BuildAbsPath(path, arg);
      if |next| >= CLIENT_PATH_BUFFER then path else next
  }

  // What the client shows after the answer to a login.
  function ClientPathAfterLogin(path: string, granted: Option<int>): string
  {
    if granted.Some? then "/" else path
  }

  class ClientState {
    var currentPath: string

    constructor ()
      ensures currentPath == "/"
    {
      currentPath := "/";
    }

    // handle_login_command, once the reply is there: what the client shows is what the server
    // has after a first login, and still what it had after a refused one.
    method FinishLogin(granted: Option<int>)
      modifies this
      ensures currentPath == ClientPathAfterLogin(old(currentPath), granted)
      ensures granted.Some? ==> forall s: Session :: currentPath == AfterLogin(LOGGED_OUT, s, granted).1.path
      ensures granted == None ==>
                forall user, s: Session ::
                  s.path == old(currentPath) ==> currentPath == AfterLogin(user, s, granted).1.path
    {
      if granted == None {
        return;
      }
      currentPath := "/";
    }

    // update_client_path_after_cd
    method UpdatePathAfterCd(arg: string)
      requires arg != ""
      modifies this
      ensures currentPath == ClientPathAfterCd(old(currentPath), arg)
    {
      var nextPath := currentPath;
      if arg == "." {
        return;
      }
      if arg == ".." {
        if currentPath == "/" {
          return;
        }
        var lastSlash := LastSlash(nextPath);
        if lastSlash == 0 {
          nextPath := "/";
        } else if lastSlash > 0 {
          nextPath := nextPath[..lastSlash];
        }
      } else if arg[0] == '/' {
        nextPath := arg;
      } else if currentPath == "/" {
        nextPath := "/" + arg;
      } else {
        nextPath := currentPath + "/" + arg;
      }
      if |nextPath| >= CLIENT_PATH_BUFFER {
        return;
      }
      currentPath := nextPath;
    }

    // The replies to one request, with the login it may begin with: whatever it is, a client
    // that showed the server's directory shows it again.
    method Hear(r: Request, ok: bool, ghost w: World, ghost content: Content)
      requires Proper(w.db, SessionFor(w, r), r.cmd, content)
      requires r.origin.Over? ==> SessionFor(w, r).path == "/"
      requires r.origin.Same? ==> currentPath == SessionOf(w, r.user).path
      requires ok == Exec(w.db, r.user, SessionFor(w, r), r.cmd).ok
      modifies this
      ensures currentPath == SessionOf(Next(w, r, content), r.user).path
    {
      hide Exec, ClientPathAfterCd;
      if !r.origin.Same? {
        FinishLogin(Some(r.user));
      }
      OnlyCdMoves(w.db, r.user, SessionFor(w, r), r.cmd);
      if r.cmd.Cd? && ok && r.cmd.arg != "" {
        CdMovesBoth(w.db, r.user, SessionFor(w, r), r.cmd.arg);
        UpdatePathAfterCd(r.cmd.arg);
      } else if r.cmd.Cd? && r.cmd.arg == "" {
        EmptyCdFails(w.db, r.user, SessionFor(w, r));
      }
    }
  }

  // The client's path for one user along a run: it follows every cd that the server answered
  // with success and every login of that user, and does nothing else. A client that another
  // user has logged in on shows that user's path from then on.
  ghost function ClientPath(w: World, rs: seq<Request>, content: Content, user: int, path: string): string
    decreases |rs|
  {
    if rs == [] then path
    else
      var r := rs[0];
      var followed := r.user == user && r.cmd.Cd? && Exec(w.db, user, SessionFor(w, r), r.cmd).ok;
      var from := if r.user == user && !r.origin.Same? then ClientPathAfterLogin(path, Some(user))
                  else if r.origin == Over(user) && r.user != user then "/" else path;
      ClientPath(Next(w, r, content), rs[1..], content, user,
                 if followed && r.cmd.arg != "" then ClientPathAfterCd(from, r.cmd.arg) else from)
  }

  // Every login over a live session finds it at the root.
  ghost predicate LiveLoginsAtRoot(w: World, rs: seq<Request>, content: Content)
    decreases |rs|
  {
    rs == [] || ((rs[0].origin.Over? ==> SessionFor(w, rs[0]).path == "/")
                 && LiveLoginsAtRoot(Next(w, rs[0], content), rs[1..], content))
  }

  lemma OnlyCdMoves(db: Db, user: int, s: Session, cmd: Command)
    ensures !cmd.Cd? || !Exec(db, user, s, cmd).ok ==> Exec(db, user, s, cmd).session == s
  {
  }

  lemma EmptyCdFails(db: Db, user: int, s: Session)
    ensures !Exec(db, user, s, Cd("")).ok
  {
  }

  lemma CdMovesBoth(db: Db, user: int, s: Session, arg: string)
    requires arg != "" && Exec(db, user, s, Cd(arg)).ok
    requires Target(s, Cd(arg)).Some? && |Target(s, Cd(arg)).value| < CLIENT_PATH_BUFFER
    ensures Exec(db, user, s, Cd(arg)).session.path == ClientPathAfterCd(s.path, arg)
  {
  }

  // Client and server agree on the current directory after every command of every run.
  // LoginAgreesIff says why live logins have to be at the root.
  lemma {:induction false} ClientFollowsServer(w: World, rs: seq<Request>, content: Content, user: int)
    requires ProperRun(w, rs, content) && LiveLoginsAtRoot(w, rs, content)
    ensures ClientPath(w, rs, content, user, SessionOf(w, user).path) == SessionOf(Run(w, rs, content), user).path
    decreases |rs|
  {
    if rs != [] {
      var r, s := rs[0], SessionFor(w, rs[0]);
      if r.user == user {
        OnlyCdMoves(w.db, user, s, r.cmd);
        if r.cmd.Cd? && r.cmd.arg != "" && Exec(w.db, user, s, r.cmd).ok {
          CdMovesBoth(w.db, user, s, r.cmd.arg);
        }
      }
      ClientFollowsServer(Next(w, r, content), rs[1..], content, user);
    }
  }

  // ---------------------------------------------------------------- login

  // After a granted login the session stands in a directory of the new user if, and only if,
  // nobody was logged in, or it is the same user again, or the session was at the root.
  lemma LoginKeepsSessionIff(db: Db, user: int, s: Session, newUser: int)
    requires IdsOk(db) && (user != LOGGED_OUT ==> SessionOk(db, user, s))
    ensures var (u, t) := AfterLogin(user, s, Some(newUser));
            SessionOk(db, u, t) <==> user == LOGGED_OUT || user == newUser || s.dirId == 0
  {
  }

  // A client that showed the server's directory still does after the answer to a login if,
  // and only if, the login was refused, nobody was logged in, or the session was at the root.
  lemma LoginAgreesIff(db: Db, content: Content, user: int, s: Session, granted: Option<int>, path: string)
    requires StoreOk(db, content) && (user != LOGGED_OUT ==> SessionOk(db, user, s) && path == s.path)
    ensures (user != LOGGED_OUT || granted.Some? ==>
               (ClientPathAfterLogin(path, granted) == AfterLogin(user, s, granted).1.path
                <==> granted == None || user == LOGGED_OUT || s.dirId == 0))
  {
  }

  // User 1 makes a directory and goes there; user 2 logs in on the same connection. The
  // server keeps user 1's directory for user 2, who has none of that name; the client shows "/".
  lemma LoginOverLiveSessionDisagrees(content: Content)
    requires content(EMPTY_SHA) == []
    ensures var w := Run(EMPTY_WORLD, [MAKE_A, GO_TO_A], content);
            var (user, s) := AfterLogin(1, SessionOf(w, 1), Some(2));
            && ProperRun(EMPTY_WORLD, [MAKE_A, GO_TO_A], content) && user == 2 && s == Session("/a", 1)
            && !SessionOk(w.db, 2, s) && ClientPathAfterLogin("/a", Some(2)) != s.path
  {
    StandingInA(content);
  }

  // ---------------------------------------------------------------- authorised path

  const FULL_PATH_BUFFER: nat := 512
  const PARENT_BUFFER: nat := 256

  // build_transfer_full_path, and build_full_virtual_path on the transfer connection
  function BuildFullPath(s: Session, arg: string): Option<string>
  {
    if !TransferArg(arg) || |Join(s.path, arg)| >= FULL_PATH_BUFFER then None else Some(Join(s.path, arg))
  }

  // Every single name is authorised as long as the path fits.
  lemma FullPathIff(s: Session, arg: string)
    ensures BuildFullPath(s, arg).Some? <==>
            arg != "" && '/' !in arg && !ContainsDotDot(arg) && |Join(s.path, arg)| < 512
    ensures BuildFullPath(s, arg).Some? ==> BuildFullPath(s, arg).value == Join(s.path, arg)
  {
    hide TransferArg, ContainsDotDot;
    TransferArgIff(arg);
  }

  // split_full_path
  function SplitFullPath(fullPath: string): Option<(string, string)>
  {
    var k := LastSlash(fullPath);
    if fullPath == "" || fullPath[0] != '/' || k < 0 || k + 1 == |fullPath| then None
    else
      var rest := fullPath[k + 1..];
      var name := if |rest| < FILE_NAME_BUFFER then rest else rest[..FILE_NAME_BUFFER - 1];
      if k == 0 then Some(("/", name))
      else if k + 1 > PARENT_BUFFER then None
      else Some((fullPath[..k], name))
  }

  // build_transfer_context
  function BuildTransferContext(db: Db, user: int, fullPath: string): Option<(Session, string)>
  {
    match SplitFullPath(fullPath)
    case None => None
    case Some((parent, name)) =>
      if parent == "/" then Some((Session("/", 0), name))
      else match GetNode(db, Key(user, parent))
        case Some((id, true)) => Some((Session(parent, id), name))
        case _ => None
  }

  lemma SplitOfJoin(dir: string, arg: string)
    requires dir != "" && dir[0] == '/' && |dir| < PARENT_BUFFER && TransferArg(arg) && |arg| < FILE_NAME_BUFFER
    ensures SplitFullPath(Join(dir, arg)) == Some((dir, arg))
  {
    var p := Join(dir, arg);
    var k := if dir == "/" then 0 else |dir|;
    assert p[k] == '/' && p[k + 1..] == arg && p[..k] == if dir == "/" then "" else dir;
    assert forall i :: k < i < |p| ==> p[i] == arg[i - k - 1];
    assert LastSlash(p) == k;
  }

  // The transfer connection, started with nothing but the authorised path, ends up with the
  // very session of the control connection, directory id included, and so with the same row,
  // as long as that session's directory is still there.
  lemma TransferSeesTheAuthorisedRow(db: Db, content: Content, user: int, s: Session, arg: string)
    requires StoreOk(db, content) && SessionOk(db, user, s) && |s.path| < PARENT_BUFFER
    requires BuildFullPath(s, arg).Some? && |arg| < FILE_NAME_BUFFER
    ensures var full := BuildFullPath(s, arg).value;
            var restored := BuildTransferContext(db, user, full);
            && restored == Some((s, arg))
            && BuildFullPath(restored.value.0, restored.value.1) == Some(full)
  {
    SessionPathNonEmpty(db, content, user, s);
    SplitOfJoin(s.path, arg);
    RootHasNoRow(db, user);
  }

  // When the tables have changed in between, the context is restored if, and only if, the
  // directory's path still is a directory of that user; and what is restored stands in it.
  lemma RestoredIffDirectoryRemains(db: Db, content: Content, user: int, s: Session, arg: string)
    requires StoreOk(db, content) && s.path != "" && s.path[0] == '/' && |s.path| < PARENT_BUFFER
    requires TransferArg(arg) && |arg| < FILE_NAME_BUFFER
    ensures var r := BuildTransferContext(db, user, Join(s.path, arg));
            && (r.Some? <==> s.path == "/" || Look(db, Key(user, s.path)) == Some(Dir))
            && (r.Some? ==> r.value.0.path == s.path && r.value.1 == arg && SessionOk(db, user, r.value.0))
  {
    hide CountsOk, BlobsOk;
    SplitOfJoin(s.path, arg);
    LookAtDirectory(db, content, Key(user, s.path));
  }

  lemma LookAtDirectory(db: Db, content: Content, k: Key)
    requires StoreOk(db, content)
    ensures Look(db, k) == Some(Dir) <==> k in db.paths && db.paths[k].isDir
    ensures k in db.paths ==> db.paths[k].id != 0
  {
  }

  // ---------------------------------------------------------------- a name for each

  // A file may be named a|b: it is uploaded and downloaded whole, but a request for a range
  // of it does not arrive as it was sent.
  lemma BarredNameIsStoredButNotRequested(user: int, hash: string, content: Content)
    requires content(EMPTY_SHA) == [] && hash != ""
    ensures var puts := Request(user, Puts("a|b", |content(hash)|, hash, content(hash), true), NewConnection);
            Download(Run(EMPTY_WORLD, [puts], content).db, user, Session("/", 0), "a|b") == Some(content(hash))
    ensures var r := RangeRequest.Request("a|b", 0, 0, "10.0.0.1", "8080");
            RangeRequest.Build(r).Some? && RangeRequest.Parse(RangeRequest.Build(r).value) != Some(r)
  {
    var r := RangeRequest.Request("a|b", 0, 0, "10.0.0.1", "8080");
    FirstUploadIsReadBack(user, "a|b", hash, content);
    assert r.fileName[1] == '|';
    RangeRequest.RequestReadsBackIff(r);
  }
}
