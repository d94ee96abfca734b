// What each command does to the tables, the blobs and the session, as one step.
module Commands {
  import opened Wrappers
  import opened VirtualPath
  import opened Tables

  // The hash of the empty file; touch shares one blob under this name.
  const EMPTY_SHA := "e3b0c44298fc1c149afbf4c8996fb92427ae41e4649b934ca495991b7852b855"

  // The part of ClientContext that cd changes.
  datatype Session = Session(path: string, dirId: int)

  // `Puts` carries the client's file packet, the bytes that reach the server before the
  // connection ends, and whether the server can then register itself as a source of the file.
  datatype Command =
    | Cd(arg: string)
    | Mkdir(arg: string)
    | Touch(arg: string)
    | Rm(arg: string)
    | Rmdir(arg: string)
    | Puts(arg: string, size: nat, hash: string, stream: Bytes, registered: bool)

  datatype Outcome = Outcome(db: Db, session: Session, ok: bool)

  // check_arg_path together with the single-name rule of puts and gets.
  predicate TransferArg(arg: string)
  {
    arg != "" && '/' !in arg && !HasDotDot(arg)
  }

  predicate HasDotDot(arg: string)
  {
    exists i :: 0 <= i < |arg| - 1 && arg[i] == '.' && arg[i + 1] == '.'
  }

  // The path a command is about; None for an argument that is refused outright.
  function Target(s: Session, cmd: Command): Option<string>
  {
    if cmd.arg == "" then None
    else match cmd
      case Cd(arg) => if arg == ".." then Some(ParentPath(s.path))
                      else if arg == "." then Some(s.path)
                      else Some(BuildAbsPath(s.path, arg))
      case Puts(arg, _, _, _, _) => if TransferArg(arg) then Some(Join(s.path, arg)) else None
      case _ => Some(BuildAbsPath(s.path, cmd.arg))
  }

  function ExecCd(db: Db, user: int, s: Session, arg: string): Outcome
  {
    match Target(s, Cd(arg))
    case None => Outcome(db, s, false)
    case Some(target) =>
      if arg == "." then Outcome(db, s, true)
      else match GetNode(db, Key(user, target))
        case None => Outcome(db, s, false)
        case Some((id, isDir)) => if isDir then Outcome(db, Session(target, id), true) else Outcome(db, s, false)
  }

  function ExecMkdir(db: Db, user: int, s: Session, arg: string): Outcome
  {
    match Target(s, Mkdir(arg))
    case None => Outcome(db, s, false)
    case Some(target) =>
      if !ValidName(LastName(target)) || GetNode(db, Key(user, target)).Some? then Outcome(db, s, false)
      else match InsertNode(db, Key(user, target), None, s.dirId, LastName(target), true)
        case None => Outcome(db, s, false)
        case Some(db') => Outcome(db', s, true)
  }

  // create_user_file_link
  function LinkFile(db: Db, k: Key, s: Session, name: string, f: int, addRef: bool): Option<Db>
  {
    match InsertNode(db, k, Some(f), s.dirId, name, false)
    case None => None
    case Some(db') => Some(if addRef then AddRef(db', f) else db')
  }

  ghost function ExecTouch(db: Db, user: int, s: Session, arg: string): Outcome
  {
    match Target(s, Touch(arg))
    case None => Outcome(db, s, false)
    case Some(target) =>
      if !ValidName(LastName(target)) || GetNode(db, Key(user, target)).Some? then Outcome(db, s, false)
      else
        var (db', ok) := LinkEmptyFile(WithEmptyBlob(db), Key(user, target), s, LastName(target));
        Outcome(db', s, ok)
  }

  ghost function WithEmptyBlob(db: Db): Db
  {
    db.(blobs := if EMPTY_SHA in db.blobs then db.blobs else db.blobs[EMPTY_SHA := []])
  }

  // create_empty_file_node, once the blob is there. A file row that was inserted for nothing
  // is taken back; its id stays used up.
  ghost function LinkEmptyFile(db: Db, k: Key, s: Session, name: string): (Db, bool)
  {
    match FindSha(db, EMPTY_SHA)
    case Some(f) =>
      (match LinkFile(db, k, s, name, f, true)
       case Some(db') => (db', true)
       case None => (db, false))
    case None =>
      match LinkFile(InsertFile(db, EMPTY_SHA, 0), k, s, name, db.nextFile, false)
      case Some(db') => (db', true)
      case None => (db.(nextFile := db.nextFile + 1), false)
  }

  function ExecRm(db: Db, user: int, s: Session, arg: string): Outcome
  {
    match Target(s, Rm(arg))
    case None => Outcome(db, s, false)
    case Some(target) =>
      var k := Key(user, target);
      match GetNode(db, k)
      case Some((id, false)) =>
        (match db.paths[k].fileId
         case None => Outcome(db, s, false)
         case Some(f) => Outcome(Release(db.(paths := db.paths - {k}), f), s, f in db.files))
      case _ => Outcome(db, s, false)
  }

  // dao_is_dir_empty
  predicate IsDirEmpty(db: Db, user: int, dirId: int)
  {
    forall k :: k in db.paths ==> !(k.user == user && db.paths[k].parentId == dirId)
  }

  function ExecRmdir(db: Db, user: int, s: Session, arg: string): Outcome
  {
    match Target(s, Rmdir(arg))
    case None => Outcome(db, s, false)
    case Some(target) =>
      match GetNode(db, Key(user, target))
      case Some((id, true)) =>
        if IsDirEmpty(db, user, id) then Outcome(db.(paths := db.paths - {Key(user, target)}), s, true)
        else Outcome(db, s, false)
      case _ => Outcome(db, s, false)
  }

  // What the server keeps of an earlier attempt, and so the offset it answers with: a
  // leftover larger than the announced file is dropped.
  function Stored(db: Db, hash: string, size: nat): Bytes
  {
    if hash in db.blobs && |db.blobs[hash]| <= size then db.blobs[hash] else []
  }

  // check_store_file_ready == 1
  predicate StoreReady(db: Db, f: int)
    requires f in db.files
  {
    db.files[f].sha in db.blobs && |db.blobs[db.files[f].sha]| == db.files[f].size
  }

  // The blob after the upload loop: what was there, and what came in, at most up to `size`.
  function Received(db: Db, hash: string, size: nat, stream: Bytes): Bytes
  {
    var stored := Stored(db, hash, size);
    stored + if |stream| <= size - |stored| then stream else stream[..size - |stored|]
  }

  // finish_upload_db_work. A file row inserted here stays even when the path row is refused,
  // and both stay when the server cannot register itself as a source.
  ghost function FinishUpload(db: Db, k: Key, s: Session, name: string, hash: string, size: nat, registered: bool)
    : (Db, bool)
  {
    match FindSha(db, hash)
    case None =>
      var db1 := InsertFile(db, hash, size);
      (match LinkFile(db1, k, s, name, db.nextFile, false)
       case Some(db') => (db', registered)
       case None => (db1, false))
    case Some(f) =>
      match LinkFile(db, k, s, name, f, true)
      case Some(db') => (db', registered)
      case None => (db, false)
  }

  // What the client of puts gets back before it sends any content: a file packet with an
  // offset and perhaps the hash, or no file packet at all.
  datatype PutsAnswer = NoPacket | Packet(offset: nat, hash: string)

  // handle_puts up to that answer: it is over, or content is awaited for a new path.
  datatype Opening = Settled(db: Db, ok: bool, answer: PutsAnswer) | Awaiting(k: Key, name: string)

  ghost function Opened(db: Db, user: int, s: Session, arg: string, size: nat, hash: string): Opening
  {
    if !TransferArg(arg) then Settled(db, false, NoPacket)
    else
      var k := Key(user, Join(s.path, arg));
      var name := LastName(k.path);
      if !ValidName(name) then Settled(db, false, NoPacket)
      else if GetNode(db, k).Some? then Settled(db, false, Packet(size, ""))
      else if hash == "" then Settled(db, false, NoPacket)
      else
        match FindSha(db, hash)
        case None => Awaiting(k, name)
        case Some(f) =>
          if !StoreReady(db, f) then Awaiting(k, name)
          else match LinkFile(db, k, s, name, f, true)
            case Some(db') => Settled(db', true, Packet(0, hash))
            case None => Settled(db, false, NoPacket)
  }

  ghost function ExecPuts(db: Db, user: int, s: Session, cmd: Command): Outcome
    requires cmd.Puts?
  {
    match Opened(db, user, s, cmd.arg, cmd.size, cmd.hash)
    case Settled(db', ok, _) => Outcome(db', s, ok)
    case Awaiting(k, name) => Upload(db, k, s, name, cmd)
  }

  ghost function AnswerPuts(db: Db, user: int, s: Session, arg: string, size: nat, hash: string): PutsAnswer
  {
    match Opened(db, user, s, arg, size, hash)
    case Settled(_, _, answer) => answer
    case Awaiting(_, _) => Packet(|Stored(db, hash, size)|, "")
  }

  // How many bytes the server takes off the connection.
  ghost function PutsWaitsFor(db: Db, user: int, s: Session, arg: string, size: nat, hash: string): nat
  {
    match Opened(db, user, s, arg, size, hash)
    case Settled(_, _, _) => 0
    case Awaiting(_, _) => size - |Stored(db, hash, size)|
  }

  // The part of puts that takes in content.
  ghost function Upload(db: Db, k: Key, s: Session, name: string, cmd: Command): Outcome
    requires cmd.Puts?
  {
    var blob := Received(db, cmd.hash, cmd.size, cmd.stream);
    var db1 := db.(blobs := db.blobs[cmd.hash := blob]);
    if |blob| < cmd.size then Outcome(db1, s, false)
    else
      var (db', ok) := FinishUpload(db1, k, s, name, cmd.hash, cmd.size, cmd.registered);
      Outcome(db', s, ok)
  }

  ghost function Exec(db: Db, user: int, s: Session, cmd: Command): Outcome
  {
    match cmd
    case Cd(arg) => ExecCd(db, user, s, arg)
    case Mkdir(arg) => ExecMkdir(db, user, s, arg)
    case Touch(arg) => ExecTouch(db, user, s, arg)
    case Rm(arg) => ExecRm(db, user, s, arg)
    case Rmdir(arg) => ExecRmdir(db, user, s, arg)
    case Puts(_, _, _, _, _) => ExecPuts(db, user, s, cmd)
  }

  // handle_gets_common up to the opened blob: the bytes a download is cut from.
  function Download(db: Db, user: int, s: Session, arg: string): Option<Bytes>
  {
    if !TransferArg(arg) then None
    else match Look(db, Key(user, Join(s.path, arg)))
      case Some(File(bytes)) => Some(bytes)
      case _ => None
  }

  // ---------------------------------------------------------------- login

  const LOGGED_OUT: int := -1

  // A login command on a connection whose user is `user`: a refused login logs out; a granted
  // one resets the directory only when nobody was logged in.
  function AfterLogin(user: int, s: Session, granted: Option<int>): (int, Session)
  {
    match granted
    case None => (LOGGED_OUT, s)
    case Some(newUser) => (newUser, if user == LOGGED_OUT then Session("/", 0) else s)
  }
}
