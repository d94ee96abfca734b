// Transfers as they happen: a ticket is issued on the control connection, for the path that
// the session gives it at that moment, and used later on a connection of its own, which knows
// nothing but that path. In between the user may go elsewhere, remove things, log in again.
module TransferRuns {
  import opened Wrappers
  import opened Limits
  import opened VirtualPath
  import opened Tables
  import opened Commands
  import opened StoreInvariants
  import opened StoreSteps
  import opened CommandSuccess
  import opened StoreRuns
  import opened StoreLimits
  import opened SessionAgreement
  import TicketSpec

  // What a token says; it cannot be changed or made up.
  datatype Grant = Grant(user: int, path: string, forPuts: bool)

  // `grants` are the tokens ever handed out, by ticket id; `tickets` the table of the live ones.
  datatype Server = Server(world: World, tickets: TicketSpec.Tickets, grants: map<string, Grant>)

  datatype Act =
    | Control(r: Request)
    | Authorise(user: int, arg: string, forPuts: bool, now: int, id: string)
    | Transfer(id: string, now: int, size: nat, hash: string, stream: Bytes, registered: bool)

  const NEW_SERVER := Server(EMPTY_WORLD, map[], map[])

  // The ticket table's share of an act: none for a name that is refused or a made-up token.
  function TicketEvent(sv: Server, a: Act): Option<TicketSpec.Event>
  {
    match a
    case Control(_) => None
    case Authorise(user, arg, _, now, id) =>
      if BuildFullPath(SessionOf(sv.world, user), arg).Some? then Some(TicketSpec.Issue(now, id)) else None
    case Transfer(id, now, _, _, _, _) =>
      if id in sv.grants then Some(TicketSpec.Consume(now, id)) else None
  }

  function Accepted(sv: Server, a: Act): bool
  {
    TicketEvent(sv, a).Some? && TicketSpec.Succeeds(sv.tickets, TicketEvent(sv, a).value)
  }

  // The session that handle_transfer_request works in, and the name.
  function Restored(sv: Server, id: string): Option<(Session, string)>
    requires id in sv.grants
  {
    BuildTransferContext(sv.world.db, sv.grants[id].user, sv.grants[id].path)
  }

  function UploadOf(a: Act, name: string): Command
    requires a.Transfer?
  {
    Puts(name, a.size, a.hash, a.stream, a.registered)
  }

  // An upload with an accepted ticket whose directory is still there.
  function Uploads(sv: Server, a: Act): bool
  {
    a.Transfer? && Accepted(sv, a) && sv.grants[a.id].forPuts && Restored(sv, a.id).Some?
  }

  ghost function UploadOutcome(sv: Server, a: Act): Outcome
    requires Uploads(sv, a)
  {
    var (s, name) := Restored(sv, a.id).value;
    Exec(sv.world.db, sv.grants[a.id].user, s, UploadOf(a, name))
  }

  ghost function After(sv: Server, a: Act, content: Content): Server
  {
    var tickets := match TicketEvent(sv, a)
                   case None => sv.tickets
                   case Some(e) => TicketSpec.Apply(sv.tickets, e);
    match a
    case Control(r) => sv.(world := Next(sv.world, r, content))
    case Authorise(user, arg, forPuts, _, id) =>
      if Accepted(sv, a) then
        var path := BuildFullPath(SessionOf(sv.world, user), arg).value;
        sv.(tickets := tickets, grants := sv.grants[id := Grant(user, path, forPuts)])
      else sv.(tickets := tickets)
    case Transfer(id, _, _, _, _, _) =>
      if Uploads(sv, a) then
        var (s, name) := Restored(sv, id).value;
        var out := UploadOutcome(sv, a);
        var drive := if out.ok then TellDrive(sv.world.drive, sv.grants[id].user, s, UploadOf(a, name), content)
                     else sv.world.drive;
        sv.(tickets := tickets, world := sv.world.(db := out.db, drive := drive))
      else sv.(tickets := tickets)
  }

  ghost function AfterAll(sv: Server, acts: seq<Act>, content: Content): Server
    decreases |acts|
  {
    if acts == [] then sv else AfterAll(After(sv, acts[0], content), acts[1..], content)
  }

  // The bytes that gets delivers to a transfer connection, before any range is cut from them.
  function Delivered(sv: Server, id: string): Option<Bytes>
    requires id in sv.grants
  {
    match Restored(sv, id)
    case None => None
    case Some((s, name)) => Download(sv.world.db, sv.grants[id].user, s, name)
  }

  // ---------------------------------------------------------------- what stays true

  // Ids are random and never repeated; names fit the command packet; uploads are honest.
  ghost predicate ProperAct(sv: Server, a: Act, content: Content)
  {
    match a
    case Control(r) =>
      !r.cmd.Puts? && ProperLogin(sv.world, r) && Proper(sv.world.db, SessionFor(sv.world, r), r.cmd, content)
    case Authorise(_, arg, _, _, id) => |arg| < FILE_NAME_BUFFER && id !in sv.grants
    case Transfer(id, _, _, _, _, _) =>
      Uploads(sv, a) ==>
        && |sv.grants[id].path| <= MAX_PATH_COLUMN && a.registered
        && Honest(sv.world.db, UploadOf(a, Restored(sv, id).value.1), content)
  }

  ghost predicate ProperActs(sv: Server, acts: seq<Act>, content: Content)
    decreases |acts|
  {
    acts == [] || (ProperAct(sv, acts[0], content) && ProperActs(After(sv, acts[0], content), acts[1..], content))
  }

  // A granted path comes apart into the directory and the name it was made of.
  predicate GrantOk(g: Grant)
  {
    match SplitFullPath(g.path)
    case None => false
    case Some((dir, name)) => dir != "" && Join(dir, name) == g.path && TransferArg(name)
  }

  ghost predicate PathsFit(db: Db)
  {
    forall k :: k in db.paths ==> |k.path| <= MAX_PATH_COLUMN
  }

  ghost predicate ServerOk(sv: Server, content: Content)
  {
    && WorldOk(sv.world, content) && PathsFit(sv.world.db)
    && sv.tickets.Keys <= sv.grants.Keys
    && (forall id :: id in sv.grants ==> GrantOk(sv.grants[id]))
  }

  lemma NewServerOk(content: Content)
    ensures ServerOk(NEW_SERVER, content)
  {
    EmptyWorldOk(content);
  }

  lemma ExecKeepsPathsFit(db: Db, user: int, s: Session, cmd: Command)
    requires PathsFit(db)
    ensures PathsFit(Exec(db, user, s, cmd).db)
  {
    hide LastName, TransferArg;
  }

  // An upload strands nobody, the user's own control connection included.
  lemma PutsKeepsSessions(db: Db, user: int, s: Session, cmd: Command)
    requires cmd.Puts?
    ensures KeepsSessions(db, Exec(db, user, s, cmd).db)
  {
    hide LastName, TransferArg, Received;
  }

  lemma GrantedPathSplits(sv: Server, user: int, arg: string, content: Content)
    requires ServerOk(sv, content) && |arg| < FILE_NAME_BUFFER
    requires BuildFullPath(SessionOf(sv.world, user), arg).Some?
    ensures var s := SessionOf(sv.world, user);
            var g := Grant(user, BuildFullPath(s, arg).value, true);
            GrantOk(g) && GrantOk(g.(forPuts := false)) && SplitFullPath(g.path) == Some((s.path, arg))
            && s.path != "" && s.path[0] == '/' && |s.path| < PARENT_BUFFER
  {
    var s := SessionOf(sv.world, user);
    assert SessionOk(sv.world.db, user, s);
    SessionPathNonEmpty(sv.world.db, content, user, s);
    SplitOfJoin(s.path, arg);
  }

  // The restored session stands in the directory of the granted path.
  lemma RestoredStands(sv: Server, id: string, content: Content)
    requires ServerOk(sv, content) && id in sv.grants && Restored(sv, id).Some?
    ensures var g := sv.grants[id];
            var (s, name) := Restored(sv, id).value;
            SessionOk(sv.world.db, g.user, s) && Join(s.path, name) == g.path && TransferArg(name) && s.path != ""
  {
    hide SplitFullPath;
    assert GrantOk(sv.grants[id]);
    var g := sv.grants[id];
    var dir := SplitFullPath(g.path).value.0;
    RootHasNoRow(sv.world.db, g.user);
    if dir != "/" {
      assert GetNode(sv.world.db, Key(g.user, dir)).Some?;
      LookAtDirectory(sv.world.db, content, Key(g.user, dir));
    }
  }

  lemma UploadTarget(s: Session, a: Act, name: string)
    requires a.Transfer? && TransferArg(name)
    ensures Target(s, UploadOf(a, name)) == Some(Join(s.path, name))
  {
  }

  lemma UploadKeepsServer(sv: Server, a: Act, content: Content)
    requires ServerOk(sv, content) && ProperAct(sv, a, content) && content(EMPTY_SHA) == [] && Uploads(sv, a)
    ensures ServerOk(After(sv, a, content), content)
    ensures var g := sv.grants[a.id];
            var sv' := After(sv, a, content);
            && sv'.world.sessions == sv.world.sessions
            && (forall k :: k != Key(g.user, g.path) ==> Look(sv'.world.db, k) == Look(sv.world.db, k))
            && (UploadOutcome(sv, a).ok ==>
                  sv'.world.drive == sv.world.drive[Key(g.user, g.path) := File(content(a.hash))])
  {
    hide StoreOk, SessionOk, Look, Exec, TransferArg, SplitFullPath, LastName, Honest, KeepsSessions;
    var g := sv.grants[a.id];
    var (s, name) := Restored(sv, a.id).value;
    var cmd := UploadOf(a, name);
    RestoredStands(sv, a.id, content);
    UploadTarget(s, a, name);
    StepKeepsStore(sv.world.db, content, g.user, s, cmd);
    ExecKeepsPathsFit(sv.world.db, g.user, s, cmd);
    PutsKeepsSessions(sv.world.db, g.user, s, cmd);
    UploadedWorldOk(sv.world, g, s, cmd, content);
  }

  lemma UploadedWorldOk(w: World, g: Grant, s: Session, cmd: Command, content: Content)
    requires WorldOk(w, content) && cmd.Puts? && Target(s, cmd) == Some(g.path)
    requires var out := Exec(w.db, g.user, s, cmd);
             StepOk(w.db, content, g.user, s, cmd, out) && KeepsSessions(w.db, out.db)
    ensures var out := Exec(w.db, g.user, s, cmd);
            var drive := if out.ok then TellDrive(w.drive, g.user, s, cmd, content) else w.drive;
            WorldOk(w.(db := out.db, drive := drive), content)
  {
    hide StoreOk, SessionOk, Look, Exec, Target;
    var out := Exec(w.db, g.user, s, cmd);
    var drive := if out.ok then TellDrive(w.drive, g.user, s, cmd, content) else w.drive;
    var w' := w.(db := out.db, drive := drive);
    forall u
      ensures SessionOk(w'.db, u, SessionOf(w', u))
    {
      assert SessionOk(w.db, u, SessionOf(w, u)) && SessionOf(w', u) == SessionOf(w, u);
    }
    forall k
      ensures Look(w'.db, k) == if k in w'.drive then Some(w'.drive[k]) else None
    {
      assert Look(w.db, k) == if k in w.drive then Some(w.drive[k]) else None;
    }
  }

  lemma ApplyKeepsTickets(t: TicketSpec.Tickets, e: TicketSpec.Event)
    ensures TicketSpec.Apply(t, e).Keys <= t.Keys + {e.id}
    ensures e.Consume? || !TicketSpec.Succeeds(t, e) ==> TicketSpec.Apply(t, e).Keys <= t.Keys
  {
  }

  lemma AfterKeepsServer(sv: Server, a: Act, content: Content)
    requires ServerOk(sv, content) && ProperAct(sv, a, content) && content(EMPTY_SHA) == []
    ensures ServerOk(After(sv, a, content), content)
  {
    hide WorldOk, PathsFit, GrantOk, Exec, Proper, ProperLogin, BuildFullPath, Restored, UploadOutcome;
    hide TicketSpec.Apply, TicketSpec.Succeeds;
    if TicketEvent(sv, a).Some? {
      ApplyKeepsTickets(sv.tickets, TicketEvent(sv, a).value);
    }
    match a
    case Control(r) =>
      NextKeepsWorld(sv.world, r, content);
      ExecKeepsPathsFit(sv.world.db, r.user, SessionFor(sv.world, r), r.cmd);
    case Authorise(user, arg, _, _, _) =>
      if Accepted(sv, a) {
        GrantedPathSplits(sv, user, arg, content);
      }
    case Transfer(_, _, _, _, _, _) =>
      if Uploads(sv, a) {
        UploadKeepsServer(sv, a, content);
      }
  }

  // Over any run of commands, authorisations and transfers, however they overlap: every user
  // sees exactly the drive they were told about, and every session stands in a directory.
  lemma {:induction false} AfterAllKeepsServer(sv: Server, acts: seq<Act>, content: Content)
    requires ServerOk(sv, content) && ProperActs(sv, acts, content) && content(EMPTY_SHA) == []
    ensures ServerOk(AfterAll(sv, acts, content), content)
    decreases |acts|
  {
    hide ServerOk, ProperAct, After;
    if acts != [] {
      AfterKeepsServer(sv, acts[0], content);
      AfterAllKeepsServer(After(sv, acts[0], content), acts[1..], content);
    }
  }

  // ---------------------------------------------------------------- what a ticket is good for

  // The ticket table's share of a run.
  ghost function TicketEvents(sv: Server, acts: seq<Act>, content: Content): seq<TicketSpec.Event>
    decreases |acts|
  {
    if acts == [] then []
    else
      var rest := TicketEvents(After(sv, acts[0], content), acts[1..], content);
      match TicketEvent(sv, acts[0])
      case None => rest
      case Some(e) => [e] + rest
  }

  lemma AfterTickets(sv: Server, a: Act, content: Content)
    ensures After(sv, a, content).tickets ==
            match TicketEvent(sv, a) case None => sv.tickets case Some(e) => TicketSpec.Apply(sv.tickets, e)
  {
    hide BuildFullPath, Restored, UploadOutcome, Next;
  }

  lemma {:induction false} TicketsFollow(sv: Server, acts: seq<Act>, content: Content)
    ensures AfterAll(sv, acts, content).tickets == TicketSpec.Run(sv.tickets, TicketEvents(sv, acts, content))
    decreases |acts|
  {
    hide After, TicketEvent, TicketSpec.Apply;
    if acts != [] {
      AfterTickets(sv, acts[0], content);
      var rest := TicketEvents(After(sv, acts[0], content), acts[1..], content);
      TicketsFollow(After(sv, acts[0], content), acts[1..], content);
      match TicketEvent(sv, acts[0])
      case None =>
      case Some(e) => assert ([e] + rest)[1..] == rest;
    }
  }

  // How many transfers of a run are let in with this ticket.
  ghost function LetIn(sv: Server, acts: seq<Act>, content: Content, id: string): nat
    decreases |acts|
  {
    if acts == [] then 0
    else (if acts[0].Transfer? && acts[0].id == id && Accepted(sv, acts[0]) then 1 else 0)
         + LetIn(After(sv, acts[0], content), acts[1..], content, id)
  }

  // How many authorisations of a run hand it out.
  ghost function HandedOut(sv: Server, acts: seq<Act>, content: Content, id: string): nat
    decreases |acts|
  {
    if acts == [] then 0
    else (if acts[0].Authorise? && acts[0].id == id && Accepted(sv, acts[0]) then 1 else 0)
         + HandedOut(After(sv, acts[0], content), acts[1..], content, id)
  }

  lemma {:induction false} CountsAreTicketCounts(sv: Server, acts: seq<Act>, content: Content, id: string)
    ensures LetIn(sv, acts, content, id) == TicketSpec.Uses(sv.tickets, TicketEvents(sv, acts, content), id)
    ensures HandedOut(sv, acts, content, id) == TicketSpec.Issues(sv.tickets, TicketEvents(sv, acts, content), id)
    decreases |acts|
  {
    hide After, TicketSpec.Apply, TicketSpec.Succeeds, BuildFullPath;
    if acts != [] {
      AfterTickets(sv, acts[0], content);
      var rest := TicketEvents(After(sv, acts[0], content), acts[1..], content);
      CountsAreTicketCounts(After(sv, acts[0], content), acts[1..], content, id);
      match TicketEvent(sv, acts[0])
      case None =>
      case Some(e) => assert ([e] + rest)[1..] == rest;
    }
  }

  lemma {:induction false} HandedOutOnce(sv: Server, acts: seq<Act>, content: Content, id: string)
    requires ProperActs(sv, acts, content)
    ensures HandedOut(sv, acts, content, id) <= if id in sv.grants then 0 else 1
    decreases |acts|
  {
    hide BuildFullPath, Restored, UploadOutcome, Next, Proper, ProperLogin, Honest;
    if acts != [] {
      HandedOutOnce(After(sv, acts[0], content), acts[1..], content, id);
    }
  }

  // From an empty table on, whatever the users do, no ticket lets in more than one transfer,
  // and none that was not handed out lets in any.
  lemma OneTransferPerTicket(acts: seq<Act>, content: Content, id: string)
    requires ProperActs(NEW_SERVER, acts, content)
    ensures LetIn(NEW_SERVER, acts, content, id) <= HandedOut(NEW_SERVER, acts, content, id) <= 1
  {
    CountsAreTicketCounts(NEW_SERVER, acts, content, id);
    HandedOutOnce(NEW_SERVER, acts, content, id);
    TicketSpec.UsedAtMostOncePerIssue(map[], TicketEvents(NEW_SERVER, acts, content), id);
  }

  predicate LeavesTicket(acts: seq<Act>, id: string)
  {
    forall i :: 0 <= i < |acts| ==> acts[i].Control? || acts[i].id != id
  }

  lemma {:induction false} TicketLeft(sv: Server, acts: seq<Act>, content: Content, id: string)
    requires LeavesTicket(acts, id)
    ensures TicketSpec.Untouched(TicketEvents(sv, acts, content), id)
    ensures id in sv.grants ==>
              id in AfterAll(sv, acts, content).grants && AfterAll(sv, acts, content).grants[id] == sv.grants[id]
    decreases |acts|
  {
    hide BuildFullPath, Restored, UploadOutcome, Next, TicketSpec.Apply, TicketSpec.Succeeds;
    if acts != [] {
      TicketLeft(After(sv, acts[0], content), acts[1..], content, id);
    }
  }

  // The whole life of an authorised transfer: after the ticket was handed out in directory
  // s.path, and whatever anybody does with other tickets and on control connections, the
  // transfer works in that same directory, on that name, if, and only if, no clock reading
  // has come to the expiry and the user still has a directory of that path.
  lemma AuthorisedTransfer(sv: Server, auth: Act, acts: seq<Act>, t: Act, content: Content)
    requires ServerOk(sv, content) && content(EMPTY_SHA) == [] && auth.Authorise? && Accepted(sv, auth)
    requires ProperActs(sv, [auth] + acts, content)
    requires t.Transfer? && t.id == auth.id && LeavesTicket(acts, auth.id)
    ensures var s := SessionOf(sv.world, auth.user);
            var sv1 := After(sv, auth, content);
            var sv2 := AfterAll(sv1, acts, content);
            var expiry := auth.now + TicketSpec.EXPIRE_SECONDS;
            && t.id in sv2.grants
            && (Accepted(sv2, t) <==> TicketSpec.AllBefore(TicketEvents(sv1, acts, content), expiry) && t.now < expiry)
            && (Restored(sv2, t.id).Some? <==>
                  s.path == "/" || Look(sv2.world.db, Key(auth.user, s.path)) == Some(Dir))
            && (Restored(sv2, t.id).Some? ==>
                  Restored(sv2, t.id).value.0.path == s.path && Restored(sv2, t.id).value.1 == auth.arg
                  && SessionOk(sv2.world.db, auth.user, Restored(sv2, t.id).value.0))
  {
    hide ServerOk, ProperAct, After, Accepted, Restored, Look, SessionOk;
    var sv1 := After(sv, auth, content);
    var sv2 := AfterAll(sv1, acts, content);
    assert ([auth] + acts)[1..] == acts;
    assert ProperAct(sv, auth, content) && ProperActs(sv1, acts, content);
    AuthoriseFits(sv, auth, content);
    AfterKeepsServer(sv, auth, content);
    AfterAllKeepsServer(sv1, acts, content);
    TicketLeft(sv1, acts, content, t.id);
    AcceptedUntilExpiry(sv, sv1, auth, acts, t, content);
    RestoredWhereAuthorised(sv2, t.id, auth.user, SessionOf(sv.world, auth.user), auth.arg, content);
  }

  lemma AcceptedUntilExpiry(sv: Server, sv1: Server, auth: Act, acts: seq<Act>, t: Act, content: Content)
    requires auth.Authorise? && t.Transfer? && t.id == auth.id && LeavesTicket(acts, auth.id)
    requires sv1.tickets == TicketSpec.Apply(sv.tickets, TicketSpec.Issue(auth.now, auth.id))
    requires !TicketSpec.Full(sv.tickets, auth.now) && t.id in AfterAll(sv1, acts, content).grants
    ensures var expiry := auth.now + TicketSpec.EXPIRE_SECONDS;
            Accepted(AfterAll(sv1, acts, content), t) <==>
            TicketSpec.AllBefore(TicketEvents(sv1, acts, content), expiry) && t.now < expiry
  {
    hide After, TicketSpec.Apply, TicketSpec.Full, TicketSpec.Succeeds, TicketSpec.AllBefore;
    TicketLeft(sv1, acts, content, t.id);
    TicketsFollow(sv1, acts, content);
    TicketSpec.TicketLife(sv.tickets, auth.now, auth.id, TicketEvents(sv1, acts, content), t.now);
  }

  lemma RestoredWhereAuthorised(sv: Server, id: string, user: int, s: Session, arg: string, content: Content)
    requires ServerOk(sv, content) && id in sv.grants
    requires sv.grants[id].user == user && sv.grants[id].path == Join(s.path, arg)
    requires s.path != "" && s.path[0] == '/' && |s.path| < PARENT_BUFFER
    requires TransferArg(arg) && |arg| < FILE_NAME_BUFFER
    ensures Restored(sv, id).Some? <==> s.path == "/" || Look(sv.world.db, Key(user, s.path)) == Some(Dir)
    ensures Restored(sv, id).Some? ==>
              Restored(sv, id).value.0.path == s.path && Restored(sv, id).value.1 == arg
              && SessionOk(sv.world.db, user, Restored(sv, id).value.0)
  {
    hide ServerOk, BuildTransferContext, Look, SessionOk, TransferArg;
    ServerStore(sv, content);
    RestoredIffDirectoryRemains(sv.world.db, content, user, s, arg);
  }

  lemma ServerStore(sv: Server, content: Content)
    requires ServerOk(sv, content)
    ensures StoreOk(sv.world.db, content)
  {
  }

  lemma AuthoriseFits(sv: Server, auth: Act, content: Content)
    requires ServerOk(sv, content) && ProperAct(sv, auth, content) && auth.Authorise? && Accepted(sv, auth)
    ensures var s := SessionOf(sv.world, auth.user);
            && s.path != "" && s.path[0] == '/' && |s.path| < PARENT_BUFFER
            && TransferArg(auth.arg) && |auth.arg| < FILE_NAME_BUFFER
            && After(sv, auth, content).grants ==
               sv.grants[auth.id := Grant(auth.user, Join(s.path, auth.arg), auth.forPuts)]
            && !TicketSpec.Full(sv.tickets, auth.now)
            && After(sv, auth, content).tickets == TicketSpec.Apply(sv.tickets, TicketSpec.Issue(auth.now, auth.id))
  {
    hide ServerOk;
    GrantedPathSplits(sv, auth.user, auth.arg, content);
  }

  // ---------------------------------------------------------------- reading back

  // No command and no upload of `acts` is about this path of this user.
  ghost predicate ActsLeaveAlone(sv: Server, acts: seq<Act>, k: Key, content: Content)
    decreases |acts|
  {
    acts == [] ||
    (&& (match acts[0]
         case Control(r) => !(r.user == k.user && Target(SessionFor(sv.world, r), r.cmd) == Some(k.path))
         case Authorise(_, _, _, _, _) => true
         case Transfer(id, _, _, _, _, _) =>
           Uploads(sv, acts[0]) ==> Key(sv.grants[id].user, sv.grants[id].path) != k)
     && ActsLeaveAlone(After(sv, acts[0], content), acts[1..], k, content))
  }

  lemma AfterLeavesAlone(sv: Server, a: Act, k: Key, content: Content)
    requires ServerOk(sv, content) && ProperAct(sv, a, content) && content(EMPTY_SHA) == []
    requires ActsLeaveAlone(sv, [a], k, content)
    ensures Look(After(sv, a, content).world.db, k) == Look(sv.world.db, k)
  {
    hide StoreOk, SessionOk, Look, Exec, BuildFullPath, Restored, UploadOutcome, Honest, GrantOk, PathsFit;
    match a
    case Control(r) =>
      NextKeepsWorld(sv.world, r, content);
      var w, w' := sv.world, Next(sv.world, r, content);
      assert Look(w.db, k) == if k in w.drive then Some(w.drive[k]) else None;
      assert Look(w'.db, k) == if k in w'.drive then Some(w'.drive[k]) else None;
    case Authorise(_, _, _, _, _) =>
    case Transfer(_, _, _, _, _, _) =>
      if Uploads(sv, a) {
        UploadKeepsServer(sv, a, content);
      }
  }

  lemma {:induction false} LeftAlone(sv: Server, acts: seq<Act>, k: Key, content: Content)
    requires ServerOk(sv, content) && ProperActs(sv, acts, content) && content(EMPTY_SHA) == []
    requires ActsLeaveAlone(sv, acts, k, content)
    ensures Look(AfterAll(sv, acts, content).world.db, k) == Look(sv.world.db, k)
    decreases |acts|
  {
    hide ServerOk, ProperAct, After, Look, Uploads;
    if acts != [] {
      assert [acts[0]][1..] == [];
      assert ActsLeaveAlone(After(sv, acts[0], content), [], k, content);
      AfterLeavesAlone(sv, acts[0], k, content);
      AfterKeepsServer(sv, acts[0], content);
      LeftAlone(After(sv, acts[0], content), acts[1..], k, content);
    }
  }

  // When a ticketed upload succeeds, said of tickets, paths and bytes only.
  lemma TicketedUploadSucceedsIff(sv: Server, t: Act, content: Content)
    requires ServerOk(sv, content) && content(EMPTY_SHA) == []
    requires t.Transfer? && t.id in sv.grants && sv.grants[t.id].forPuts && Restored(sv, t.id).Some?
    requires var name := Restored(sv, t.id).value.1; Honest(sv.world.db, UploadOf(t, name), content)
    requires |sv.grants[t.id].path| <= MAX_PATH_COLUMN
    ensures Uploads(sv, t) <==> t.id in sv.tickets && sv.tickets[t.id] > t.now
    ensures Uploads(sv, t) ==>
              var db := sv.world.db;
              var k := Key(sv.grants[t.id].user, sv.grants[t.id].path);
              && (UploadOutcome(sv, t).ok <==>
                    && |Restored(sv, t.id).value.1| <= 30 && Look(db, k) == None && t.hash != ""
                    && (Known(db, t.hash)
                        || (OnDisk(db, t.hash) + |t.stream| >= t.size && t.registered)))
              && (UploadOutcome(sv, t).ok ==> ChangesOnly(db, UploadOutcome(sv, t).db, k, Some(File(content(t.hash)))))
  {
    hide StoreOk, SessionOk, Look, ExecPuts, Honest, ChangesOnly, Known, OnDisk;
    RestoredStands(sv, t.id, content);
    var (s, name) := Restored(sv, t.id).value;
    TransferArgIff(name);
    PutsSucceedsIff(sv.world.db, content, sv.grants[t.id].user, s, UploadOf(t, name));
  }

  // Where a file is, its directory is, and so a transfer connection finds it.
  lemma FileIsDelivered(sv: Server, id: string, bytes: Bytes, content: Content)
    requires ServerOk(sv, content) && id in sv.grants
    requires Look(sv.world.db, Key(sv.grants[id].user, sv.grants[id].path)) == Some(File(bytes))
    ensures Delivered(sv, id) == Some(bytes)
  {
    var g := sv.grants[id];
    var (dir, name) := SplitFullPath(g.path).value;
    var db := sv.world.db;
    hide LastSlash, SplitFullPath, StoreOk;
    assert GrantOk(g) && StoreOk(db, content);
    FileHasItsDirectory(db, content, g.user, dir, name);
  }

  // What a gets ticket delivers is what the path looks like, no more and no less.
  lemma DeliveredIff(sv: Server, id: string, bytes: Bytes, content: Content)
    requires ServerOk(sv, content) && id in sv.grants
    ensures Delivered(sv, id) == Some(bytes) <==>
            Look(sv.world.db, Key(sv.grants[id].user, sv.grants[id].path)) == Some(File(bytes))
  {
    hide ServerOk, Look, BuildTransferContext;
    if Restored(sv, id).Some? {
      RestoredStands(sv, id, content);
    }
    if Look(sv.world.db, Key(sv.grants[id].user, sv.grants[id].path)) == Some(File(bytes)) {
      FileIsDelivered(sv, id, bytes, content);
    }
  }

  lemma FileHasItsDirectory(db: Db, content: Content, user: int, dir: string, name: string)
    requires StoreOk(db, content) && dir != "" && TransferArg(name) && Key(user, Join(dir, name)) in db.paths
    ensures dir == "/" || (Key(user, dir) in db.paths && db.paths[Key(user, dir)].isDir)
  {
    hide LinksOk, CountsOk, BlobsOk, LastName;
    ParentKey(db.paths, Key(user, Join(dir, name)));
    JoinSplits(dir, name);
  }

  // Read your upload, over transfer connections: once an upload with a ticket has succeeded,
  // and until that user names that path again, every gets ticket for it delivers the content,
  // whatever happens to other paths, sessions and tickets in between.
  lemma TransferIsReadBack(sv: Server, t: Act, acts: seq<Act>, id: string, content: Content)
    requires ServerOk(sv, content) && content(EMPTY_SHA) == [] && ProperActs(sv, [t] + acts, content)
    requires Uploads(sv, t) && UploadOutcome(sv, t).ok
    requires var k := Key(sv.grants[t.id].user, sv.grants[t.id].path);
             && ActsLeaveAlone(After(sv, t, content), acts, k, content)
             && var sv2 := AfterAll(After(sv, t, content), acts, content);
                id in sv2.grants && Key(sv2.grants[id].user, sv2.grants[id].path) == k
    ensures Delivered(AfterAll(After(sv, t, content), acts, content), id) == Some(content(t.hash))
  {
    hide ServerOk, ProperAct, After, Restored, UploadOutcome, Delivered, Look;
    var sv1 := After(sv, t, content);
    var k := Key(sv.grants[t.id].user, sv.grants[t.id].path);
    assert ([t] + acts)[1..] == acts;
    assert ProperAct(sv, t, content) && ProperActs(sv1, acts, content);
    UploadKeepsServer(sv, t, content);
    UploadIsLookedUp(sv1, k, content(t.hash), content);
    LeftAlone(sv1, acts, k, content);
    AfterAllKeepsServer(sv1, acts, content);
    FileIsDelivered(AfterAll(sv1, acts, content), id, content(t.hash), content);
  }

  lemma UploadIsLookedUp(sv: Server, k: Key, bytes: Bytes, content: Content)
    requires ServerOk(sv, content) && k in sv.world.drive && sv.world.drive[k] == File(bytes)
    ensures Look(sv.world.db, k) == Some(File(bytes))
  {
  }

  // An upload authorised in the root, used after its user has made a directory and gone there:
  // the file is in the root, and the user still stands in /a.
  lemma UploadGoesWhereItWasAuthorised(hash: string, content: Content)
    requires content(EMPTY_SHA) == [] && hash != ""
    ensures var acts := [Authorise(1, "f", true, 0, "t"), Control(MAKE_A), Control(GO_TO_A)];
            var t := Transfer("t", 1, |content(hash)|, hash, content(hash), true);
            var sv := AfterAll(NEW_SERVER, acts, content);
            && ProperActs(NEW_SERVER, acts, content) && ProperAct(sv, t, content)
            && Uploads(sv, t) && UploadOutcome(sv, t).ok && SessionOf(After(sv, t, content).world, 1).path == "/a"
            && Look(After(sv, t, content).world.db, Key(1, "/f")) == Some(File(content(hash)))
  {
    hide Next, Look, ServerOk, WorldOk, ProperAct, Exec, After;
    var auth, mk, go := Authorise(1, "f", true, 0, "t"), Control(MAKE_A), Control(GO_TO_A);
    var acts := [auth, mk, go];
    var t := Transfer("t", 1, |content(hash)|, hash, content(hash), true);
    var sv1 := After(NEW_SERVER, auth, content);
    var sv2 := After(sv1, mk, content);
    var sv3 := After(sv2, go, content);
    AuthorisedInRoot(content);
    MovedOn(sv1, content);
    assert acts[1..] == [mk, go] && acts[1..][1..] == [go] && acts[1..][1..][1..] == [];
    assert ProperActs(sv3, [], content) && AfterAll(sv3, [], content) == sv3;
    assert ProperActs(sv2, [go], content) && AfterAll(sv2, [go], content) == sv3;
    assert ProperActs(sv1, [mk, go], content) && AfterAll(sv1, [mk, go], content) == sv3;
    NewServerOk(content);
    AfterAllKeepsServer(NEW_SERVER, acts, content);
    UsedFromElsewhere(sv3, hash, content);
    UploadKeepsServer(sv3, t, content);
    UploadIsLookedUp(After(sv3, t, content), Key(1, "/f"), content(hash), content);
  }

  lemma AuthorisedInRoot(content: Content)
    ensures var auth := Authorise(1, "f", true, 0, "t");
            && ProperAct(NEW_SERVER, auth, content)
            && After(NEW_SERVER, auth, content) == Server(EMPTY_WORLD, map["t" := 30], map["t" := Grant(1, "/f", true)])
  {
    var none: TicketSpec.Tickets := map[];
    assert TicketSpec.Swept(none, 0) == none;
    assert TransferArg("f") && Join("/", "f") == "/f";
  }

  lemma MovedOn(sv: Server, content: Content)
    requires sv.world == EMPTY_WORLD
    ensures var sv1 := After(sv, Control(MAKE_A), content);
            var sv2 := After(sv1, Control(GO_TO_A), content);
            && ProperAct(sv, Control(MAKE_A), content) && ProperAct(sv1, Control(GO_TO_A), content)
            && sv2.world.db == ONE_DIRECTORY && SessionOf(sv2.world, 1).path == "/a"
            && sv2.tickets == sv.tickets && sv2.grants == sv.grants
  {
    hide Next, Proper;
    AfterMakingA(content);
    AfterGoingToA(Next(EMPTY_WORLD, MAKE_A, content), content);
  }

  lemma UsedFromElsewhere(sv: Server, hash: string, content: Content)
    requires sv.world.db == ONE_DIRECTORY && hash != ""
    requires sv.tickets == map["t" := 30] && sv.grants == map["t" := Grant(1, "/f", true)]
    ensures var t := Transfer("t", 1, |content(hash)|, hash, content(hash), true);
            Uploads(sv, t) && UploadOutcome(sv, t).ok && ProperAct(sv, t, content)
  {
    var t := Transfer("t", 1, |content(hash)|, hash, content(hash), true);
    SplitOfJoin("/", "f");
    assert Join("/", "f") == "/f";
    hide SplitFullPath, LastName, Exec;
    assert Restored(sv, "t") == Some((Session("/", 0), "f"));
    assert TicketSpec.Swept(sv.tickets, 1) == sv.tickets;
    UploadIntoRoot(hash, content);
  }

  lemma UploadIntoRoot(hash: string, content: Content)
    requires hash != ""
    ensures var cmd := Puts("f", |content(hash)|, hash, content(hash), true);
            Honest(ONE_DIRECTORY, cmd, content) && Exec(ONE_DIRECTORY, 1, Session("/", 0), cmd).ok
  {
    JoinSplits("/", "f");
    assert TransferArg("f") && Join("/", "f") == "/f";
    hide LastName, TransferArg;
    var none: Bytes := [];
    assert Stored(ONE_DIRECTORY, hash, |content(hash)|) == none;
    assert none + content(hash) == content(hash) && content(hash)[0..] == content(hash);
    assert FindSha(ONE_DIRECTORY, hash) == None;
  }
}
