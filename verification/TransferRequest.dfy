// handle_transfer_request: one transfer connection, from its token to the handler.
module TransferRequest {
  import opened Wrappers
  import opened Tables
  import opened Commands
  import opened StoreInvariants
  import opened SocketIo
  import opened StorageServer
  import opened TransferTicket
  import opened SessionAgreement
  import opened TransferRuns
  import TicketSpec

  // handle_puts in a context made for this one transfer.
  method RunUpload(disk: NetDisk, user: int, s: Session, name: string, size: nat, hash: string,
                   registered: bool, sock: Incoming)
    returns (ok: bool)
    requires IdsOk(disk.State())
    modifies disk, sock
    ensures var cmd := Puts(name, size, hash, old(sock.arriving), registered);
            Outcome(disk.State(), s, ok) == Exec(old(disk.State()), user, s, cmd)
    ensures var wanted := PutsWaitsFor(old(disk.State()), user, s, name, size, hash);
            sock.arriving == Unread(old(sock.arriving), wanted)
  {
    hide ExecPuts, Opened, IdsOk, Unread;
    var ctx := new ClientContext(user);
    ctx.currentPath, ctx.currentDirId := s.path, s.dirId;
    var answer;
    ok, answer := disk.HandlePuts(ctx, name, size, hash, registered, sock);
  }

  // The token was decoded to the id and the grant. The ticket is consumed first; then the
  // context is rebuilt from the path, and an upload runs in it. Of the server's state this is
  // one Transfer act. A gets token changes nothing here; FileTransfer.HandleGets serves it.
  method HandleTransferRequest(disk: NetDisk, table: TicketTable, id: string, grant: Grant, now: int,
                               size: nat, hash: string, registered: bool, sock: Incoming)
    returns (ok: bool)
    requires table.Valid() && IdsOk(disk.State())
    modifies table.slots, disk, sock
    ensures table.Valid()
    ensures Held(table.slots[..]) == TicketSpec.Apply(old(Held(table.slots[..])), TicketSpec.Consume(now, id))
    ensures var context := BuildTransferContext(old(disk.State()), grant.user, grant.path);
            var accepted := TicketSpec.Succeeds(old(Held(table.slots[..])), TicketSpec.Consume(now, id));
            if accepted && grant.forPuts && context.Some? then
              var (s, name) := context.value;
              var cmd := Puts(name, size, hash, old(sock.arriving), registered);
              && Outcome(disk.State(), s, ok) == Exec(old(disk.State()), grant.user, s, cmd)
              && sock.arriving == Unread(old(sock.arriving),
                                         PutsWaitsFor(old(disk.State()), grant.user, s, name, size, hash))
            else
              !ok && disk.State() == old(disk.State()) && sock.arriving == old(sock.arriving)
  {
    hide Held, DistinctIds, TicketSpec.Apply, TicketSpec.Succeeds, Exec, Opened, IdsOk, BuildTransferContext, Unread;
    hide TicketTable.Valid;
    var found := table.Consume(now, id);
    if !found || !grant.forPuts {
      return false;
    }
    var context := BuildTransferContext(disk.State(), grant.user, grant.path);
    if context == None {
      return false;
    }
    var (s, name) := context.value;
    ok := RunUpload(disk, grant.user, s, name, size, hash, registered, sock);
  }

  // On a server in that state, it is what the act does.
  lemma RequestIsTransfer(sv: Server, t: Act, db: Db, tickets: TicketSpec.Tickets, content: Content)
    requires t.Transfer? && t.id in sv.grants
    requires tickets == TicketSpec.Apply(sv.tickets, TicketSpec.Consume(t.now, t.id))
    requires var g := sv.grants[t.id];
             var context := BuildTransferContext(sv.world.db, g.user, g.path);
             var accepted := TicketSpec.Succeeds(sv.tickets, TicketSpec.Consume(t.now, t.id));
             db == if accepted && g.forPuts && context.Some? then
                     Exec(sv.world.db, g.user, context.value.0, UploadOf(t, context.value.1)).db
                   else sv.world.db
    ensures After(sv, t, content).tickets == tickets && After(sv, t, content).world.db == db
  {
    hide Exec, BuildTransferContext, TicketSpec.Apply, TicketSpec.Succeeds;
  }
}
