# WindCloud, verified

WindCloud is a networked drive. A client keeps one control connection for commands and opens
transfer connections for `puts` and `gets`; the server keeps each content once, under its hash,
below a per-user tree of virtual paths, and a download can come from several servers at once.
This project is a Dafny model of the parts of it that carry state, and proves what they keep.

Wherever the C code changes things step by step, the model has a class or a loop that does the same
steps. Such a method is proved equal to one step of a small specification (a map, a state machine, a
function on tables), and the results about whole runs are lemmas over that specification.

| files | what they hold |
|---|---|
| `WheelSpec`, `ControlPlane` | the sixty-slot wheel of doubly linked lists, the registry of control connections that it calls back into, and the map from connection to deadline that both together implement |
| `VirtualPath`, `Tables`, `Commands`, `StoreInvariants`, `StoreSteps`, `StoreCounts`, `CommandSuccess`, `StoreRuns`, `StoreLimits`, `StorageServer` | the tables `paths` and `files`, the blobs, the commands `cd mkdir touch rm rmdir puts gets`, the invariants, exactly when each command succeeds, runs by any number of users, the conditions under which the invariants stop, and the handlers as they work |
| `Limits`, `Text`, `MetaIni`, `MetaIniCut`, `RangeSplit`, `PartDownload`, `DownloadRounds`, `PlanChange`, `MultipartTask` | decimals and lines, the file `meta.ini` and any beginning of it, the split into ranges, the resumable download as a state machine, changes of plan, and the client code for it |
| `SocketIo`, `FileTransfer` | sending and receiving loops over a connection that may end after any byte, and the offset handshakes of both directions |
| `TicketSpec`, `TransferTicket` | one-shot tickets: a map from id to expiry, and the 1024 slots |
| `RangeRequest`, `SessionAgreement` | the `\|`-separated range request, the current directory on both sides, and the path that carries authority from control to transfer connection |
| `TransferRuns`, `TransferRequest` | authorisations and transfers as separate acts, with tickets pending in between, over tables, tickets and sessions together; and the handler of one transfer connection |
| `WorkerPool`, `WorkerProgress`, `TaskQueue` | the transfer workers as interleaved steps, that they keep serving, and the linked queue, busy table and flag that take those steps |

## What the code does not keep, and exactly when

Some promises hold only under a condition. The model keeps the code as it is, proves the condition from
both sides, and gives an input at which the promise fails.

- A finished multi-source download merges to the file if, and only if, the file has at least as many
  bytes as there are sources. A part without bytes counts as finished, is never fetched, and has no
  part file for the merge to open; an empty file can never be downloaded
  (`PartDownload.FinishedMergesIff`; one byte from two sources: `PartDownload.OneByteTwoSourcesNeverMerge`;
  src/client/client_gets.c:277-325).
- Part files survive a change of plan. Taking them over is safe, for every content and however far the
  parts have come, if, and only if, each old range begins where the new one does and is no longer
  (`PlanChange.TakeOverIsSafeIff`, src/client/multipart_meta.c:508-527). Four bytes fetched whole from one
  source, and then a plan with two: everything counts as finished and the merge is six bytes
  (`PlanChange.OtherSourceCountCorrupts`). What is handed out hashes to the announced hash in any case
  (`MultipartTask.Task.FinishGets`), but such a part is never fetched again: as long as plans name that many
  sources, no gets ever succeeds (`PlanChange.SpoiledForGood`).
- `mkdir` and `touch` keep the tree if, and only if, the target lies directly under the current directory
  (`StoreLimits.MkdirKeepsTreeIff`, `StoreLimits.TouchKeepsTreeIff`; a/b from the root:
  `StoreLimits.NestedMkdirBreaksTree`, `StoreLimits.NestedTouchBreaksTree`;
  src/server/file/file_cmds.c:215-262, 377).
- `rmdir` leaves the session in an existing directory if, and only if, it does not name the current
  directory (`StoreLimits.RmdirKeepsSessionIff`; mkdir a, cd a, rmdir /a:
  `StoreLimits.RmdirOfOwnDirectoryStrandsSession`; src/server/file/file_cmds.c:486-528).
- The reference counts stay right under every command of every sender, except for one: the first upload
  of some content, completely received, to a path too long for its 255-character column
  (`StoreCounts.CountsStepIff`; 279 characters, eight directories down: `StoreLimits.LongUploadLosesCount`;
  src/server/file/file_transfer.c:377-415).
- A complete upload is answered with success if, and only if, the server can then register itself as a
  source; the file is there either way (`StoreSteps.UploadStep`, src/server/file/file_transfer.c:402-414).
- A login over a live session leaves it in a directory of the new user if, and only if, nobody was
  logged in, it is the same user, or the session was at the root; client and server then show the same
  directory if, and only if, nobody was logged in or it was at the root
  (`SessionAgreement.LoginKeepsSessionIff`, `SessionAgreement.LoginAgreesIff`; user 2 over user 1 in /a:
  `SessionAgreement.LoginOverLiveSessionDisagrees`; src/server/core/session.c:564-574).
- The range request reads back as it was sent if, and only if, its three strings are non-empty and free
  of `|`, the range is in order, and everything fits its buffer (`RangeRequest.RequestReadsBackIff`; a file
  named a|b, which puts accepts: `SessionAgreement.BarredNameIsStoredButNotRequested`).

`MetaIni.SaveThenLoad` has a condition too, a file name of at most 245 characters, but no name that long
gets that far: names end at 30 characters (src/client/client_command_handle.c:131-140).

Where a comment or document says more than the code does, the model follows the code.

## Assumptions

- `timeout_sec > 0`; allocation succeeds; the kernel hands out descriptors that no open connection uses.
- Content is a function of its hash, the same for every user (`Content`), and the hash of touch's empty
  file stands for the empty content.
- One upload of a hash at a time, one session per user at a time, each command atomic.
- Ticket ids are not repeated; for the table alone, not while one of them is still in it. Encoding and
  decoding the token is faithful, and no token can be made up.
- Every data source holds the whole file. As long as anything of an earlier download of a hash is on
  disk, a plan for that hash can take it over (`RangeSplit.CanTakeOver`; the same number of sources always
  can). Ports are not empty (a ticket for an empty one is refused,
  src/server/security/transfer_ticket.c:110-115).
- For the results about the tree, the blobs and what users see (`StoreSteps.Proper`): targets within 255
  characters, mkdir and touch directly under the current directory, rmdir not of it, uploads of the
  content their hash stands for to a server that can register itself, and logins over a live session only
  by the same user or at the root. The counts need only the first of these, and only of uploads.

## Model

| member | source | states |
|---|---|---|
| WheelSpec.RunKeepsWellTimed | src/server/net/time_wheel.c:51-141 | after any sequence of adds, refreshes, removes and ticks every deadline lies in (now, now + timeout] |
| WheelSpec.QuietUntilDue | src/server/net/time_wheel.c:119-141 | whatever happens to other connections, one that nobody adds, refreshes or removes stays attached exactly while the seconds passed have not reached its deadline, and its deadline does not move |
| WheelSpec.QuietStaysAway | src/server/net/time_wheel.c:101-110 | a connection that is gone never comes back by itself |
| WheelSpec.IdleConnectionFiresOnTime | src/server/net/time_wheel.c:51-75 | after an add or refresh, the tick that fires an idle connection is the timeout-th one, no earlier and no later, also for timeouts over 60 |
| WheelSpec.ScansAreBounded | src/server/net/time_wheel.c:124-140 | along any run, the ticks that walk the slot of an untouched connection and leave it attached are exactly the full turns of the wheel that passed, at most (timeout - 1) / 60 |
| ControlPlane.Unlink | src/server/net/time_wheel.c:12-31 | taking a node out leaves a well-formed doubly linked list of exactly the other nodes, in order |
| ControlPlane.UnlinkFromSlot | src/server/net/time_wheel.c:12-31 | the slot array keeps its lists well formed; only the list of that slot loses exactly that node |
| ControlPlane.LinkFront | src/server/net/time_wheel.c:67-74 | putting a node in front leaves a well-formed list that starts with it |
| ControlPlane.LinkToSlot | src/server/net/time_wheel.c:67-74 | all slots stay well formed, the slot's list gains the node at its head |
| ControlPlane.TimeWheel.constructor | src/server/net/time_wheel.c:39-43 | an empty, well-formed wheel at second 0 |
| ControlPlane.TimeWheel.DetachNode | src/server/net/time_wheel.c:12-31 | the connection leaves its slot's list and the deadline map; every other list, node and deadline stays |
| ControlPlane.TimeWheel.Add | src/server/net/time_wheel.c:51-75 | lists stay well formed and disjoint, each connection in slot deadline % 60; the deadline map gains now + timeout for it |
| ControlPlane.TimeWheel.Refresh | src/server/net/time_wheel.c:83-93 | same connections, same invariants, and the deadline moves to now + timeout |
| ControlPlane.TimeWheel.Remove | src/server/net/time_wheel.c:101-110 | the connection leaves lists and map; called again from inside a tick, for a connection already detached, it changes nothing |
| ControlPlane.TimeWheel.Expire | src/server/net/time_wheel.c:128-136 | detach, callback and free: the connection leaves wheel and registry, is closed, and the rest of the list under the walk is untouched |
| ControlPlane.TimeWheel.Visit | src/server/net/time_wheel.c:126-139 | one step of the walk removes the node if, and only if, its deadline has come, and the saved next pointer still is the next node of the list |
| ControlPlane.TimeWheel.WalkOn | src/server/net/time_wheel.c:124-140 | one turn of the loop keeps: the list under the walk is what was kept plus what is still to come, whoever went away was due and was closed, and the rest did not change |
| ControlPlane.TimeWheel.WalkSlot | src/server/net/time_wheel.c:124-140 | the walk of a list that callbacks shorten ends, closes only due connections, and leaves only undue ones |
| ControlPlane.TimeWheel.Tick | src/server/net/time_wheel.c:119-141 | a tick is one second on the deadline map: exactly the connections whose deadline is the new second are fired and closed |
| ControlPlane.StillAccounted | src/server/core/server.c:156-173 | closing some live connections keeps "every registered connection is live or closed" |
| ControlPlane.ControlServer.constructor | src/server/core/server.c:420-430 | an empty table over an empty wheel |
| ControlPlane.ControlServer.CloseControlConnection | src/server/core/server.c:156-173 | closes, frees and forgets the connection under that descriptor, if any, in table and wheel alike; nothing is closed twice |
| ControlPlane.ControlServer.HandleControlTimeout | src/server/core/server.c:181-190 | the callback closes just the fired connection and leaves the wheel's lists alone |
| ControlPlane.ControlServer.RegisterControlConnection | src/server/core/server.c:221-240 | accepts if, and only if, the descriptor is below the table size; then table and wheel both hold the new connection |
| ControlPlane.ControlServer.Disconnect | src/server/core/server.c:312-316 | a connection whose peer is gone leaves table and wheel and is closed, once |
| ControlPlane.ControlServer.HandleControlEvent | src/server/core/server.c:300-321 | a command moves the connection's deadline, a disconnect closes it, an unknown descriptor changes nothing; table and wheel keep holding the same connections |
| ControlPlane.ControlServer.HandleTimerEvent | src/server/core/server.c:199-211 | a burst of n expirations moves the clock by n; a connection stays, with its deadline, if, and only if, that deadline is later than that; and exactly those that left were closed |
| WheelSpec.BurstOf | src/server/core/server.c:207-210 | after n seconds and nothing else a connection is attached if, and only if, its deadline is more than n seconds away |
| WheelSpec.BurstClock | src/server/core/server.c:207-210 | n seconds are n ticks of the clock |
| ControlPlane.ControlServer.CloseAllControlConnections | src/server/core/server.c:497-501 | after the exit path every connection ever registered has been closed and freed, once |
| VirtualPath.JoinSplits | src/server/file/file_cmds.c:28-73 | parent and name of a joined path are the two that were joined |
| StoreInvariants.ParentKey | src/server/file/file_cmds.c:46-58 | in a well-formed tree the row under the parent path is the row that parent_id names, and the last name is the row's name |
| StoreInvariants.EmptyMeansNothingBelow | src/server/data/dao_vfs.c:194-210 | the emptiness test by parent_id succeeds if, and only if, no path of the user lies anywhere below the directory |
| StoreInvariants.ChildOnTheWay | src/server/data/dao_vfs.c:194-210 | above any row below a directory there is a direct child of that directory |
| StoreSteps.NewRowKeepsTreeIff | src/server/data/dao_vfs.c:104-139 | a row filed under the current directory's id keeps the tree if, and only if, its path is the current path plus its name |
| StoreSteps.LinkKeepsCounts | src/server/file/file_transfer.c:346-366 | a new path row and one more on the count: every count stays the number of rows naming the file |
| StoreSteps.FirstLinkKeepsCounts | src/server/data/dao_file.c:54-71 | a fresh file row with count 1 and its first path row keep the counts |
| StoreSteps.UnlinkKeepsCounts | src/server/file/file_cmds.c:142-184 | removing a path row and one reference keeps the counts, and the file row goes if, and only if, no row names it any more |
| StoreSteps.LinkKeepsStore | src/server/file/file_transfer.c:346-366 | linking an existing file keeps tree, links, counts and blobs, all sessions, and changes the view at one path only |
| StoreSteps.FirstLinkKeepsStore | src/server/file/file_transfer.c:377-415 | the same for a first link over a complete blob |
| StoreSteps.UnlinkKeepsStore | src/server/file/file_cmds.c:142-184 | dropping a file's row, and its blob with the last one, keeps the store and hides nothing but that path |
| StoreSteps.BlobWriteKeepsStore | src/server/file/file_transfer.c:733-885 | writing a prefix of the content for a hash without a file row changes nothing that users see |
| StoreSteps.DropDirKeepsRest | src/server/data/dao_vfs.c:218-224 | dropping a directory row keeps ids, links, counts and blobs, and changes the view at one path only |
| StoreSteps.MkdirStep | src/server/file/file_cmds.c:351-383 | mkdir keeps store and sessions; on success exactly one directory appears, on failure nothing changes |
| StoreSteps.TouchStep | src/server/file/file_cmds.c:392-427 | touch keeps store and sessions; on success exactly one empty file appears, on failure nothing users see changes |
| StoreSteps.RmStep | src/server/file/file_cmds.c:436-477 | rm keeps store and sessions and on success makes exactly that file disappear, for any argument; when it succeeds is CommandSuccess.RmSucceedsIff |
| StoreSteps.RmdirStep | src/server/file/file_cmds.c:486-528 | rmdir keeps store and sessions and on success makes exactly that empty directory disappear |
| StoreSteps.CdStep | src/server/file/file_cmds.c:300-342 | cd leaves the tables alone, and the session stands in an existing directory whose id it knows |
| StoreSteps.UploadStep | src/server/file/file_transfer.c:733-885 | an upload that may end after any byte keeps the store; the path shows the content if, and only if, all bytes came in, and success is answered if the server could also register itself |
| StoreSteps.OpenedStep | src/server/file/file_transfer.c:604-732 | what is settled before any content keeps the store and shows at the target only on success, and content is awaited only for a free path and a hash without a row; when an instant upload succeeds is CommandSuccess.InstantUpload |
| StoreSteps.PutsStep | src/server/file/file_transfer.c:604-892 | refusal, instant upload, resumed and interrupted upload all keep store and sessions and change the view only on success, at the target |
| StoreSteps.ReceivedIsPrefix | src/server/file/file_transfer.c:741-882 | at rest the blob is a prefix of the content, and it is the content if, and only if, it has the announced size |
| StoreSteps.InterruptedUploadResumes | src/server/file/file_transfer.c:741-882 | what came in before the interruption is exactly what the next answer's offset is larger by |
| StoreSteps.FileRowNeedsWholeBlob | src/server/file/file_transfer.c:879-885 | whoever sends, a file row appears only over a blob of the announced size |
| StoreSteps.StepKeepsStore | src/server/core/session.c:541-626 | every command keeps the whole store invariant, every session's directory, and every other path's content |
| CommandSuccess.PutsSucceedsIff | src/server/file/file_transfer.c:604-892 | puts by an honest sender succeeds if, and only if, the name is legal, the path free, the hash not empty, and the content is known, or comes in whole to a server that can register itself; what is known needs no byte and is answered with its hash; then the path shows the content |
| CommandSuccess.InstantUpload | src/server/file/file_transfer.c:681-703 | for a legal name of a free path, content that somebody uploaded before is linked, counted once more and answered with its hash |
| CommandSuccess.LargeLeftoverStartsOver | src/server/file/file_transfer.c:741-753 | a leftover larger than announced counts for nothing: offset 0, all bytes awaited |
| CommandSuccess.RmSucceedsIff | src/server/file/file_cmds.c:436-477 | rm succeeds if, and only if, the path looks like a file; then it is gone, the paths that share the file keep it, and the last of them takes file row and bytes along |
| CommandSuccess.CdSucceedsIff | src/server/file/file_cmds.c:300-342 | cd succeeds exactly for ".", "..", the root and what looks like a directory, absolute or relative, and goes there |
| CommandSuccess.MkdirSucceedsIff | src/server/file/file_cmds.c:351-383 | mkdir succeeds exactly for a free path of at most 255 characters whose name has 1 to 30, and then it is a directory and nothing else changed |
| CommandSuccess.TouchSucceedsIff | src/server/file/file_cmds.c:392-427 | touch succeeds exactly for such a path, and then it is an empty file and nothing else looks different |
| CommandSuccess.RmdirSucceedsIff | src/server/file/file_cmds.c:486-528 | rmdir succeeds exactly for a directory with nothing below it, or for the root of a user without paths, and then that path is gone |
| CommandSuccess.TransferArgIff | src/server/file/path_utils.c:27-40 | a single name is any text without a slash and without two dots in a row |
| CommandSuccess.LoginSetsUser | src/server/core/session.c:564-574 | a refused login leaves the connection without a user, a granted one with the new user, the first one in the root |
| StoreLimits.MkdirKeepsTreeIff | src/server/file/file_cmds.c:351-383 | a successful mkdir keeps the tree if, and only if, the target is directly under the current directory |
| StoreLimits.NestedMkdirBreaksTree | src/server/file/file_cmds.c:377 | mkdir a/b from the root, concretely, files /a/b under the root |
| StoreLimits.TouchKeepsTreeIff | src/server/file/file_cmds.c:392-427 | the same condition for touch |
| StoreLimits.NestedTouchBreaksTree | src/server/file/file_cmds.c:215-262 | touch a/b from the root, concretely, files /a/b under the root |
| StoreLimits.RmdirKeepsSessionIff | src/server/file/file_cmds.c:486-528 | a successful rmdir keeps the session's directory if, and only if, it names another one |
| StoreLimits.RmdirOfOwnDirectoryStrandsSession | src/server/file/file_cmds.c:486-528 | mkdir a, cd a, rmdir /a from nothing: it succeeds and the session stands in no directory |
| StoreSteps.DropKeepsSessionIff | src/server/data/dao_vfs.c:218-224 | dropping a row strands a session if, and only if, it is the session's own directory |
| StoreCounts.UploadKeepsCountsIff | src/server/file/file_transfer.c:377-415 | receiving content keeps the counts if, and only if, it is not a first, complete upload to a path too long for its column |
| StoreCounts.CountsStepIff | src/server/core/session.c:541-722 | every command, with any argument, hash, size and stream, keeps counts, links and keys if, and only if, it is not that upload |
| StoreLimits.LongUploadLosesCount | src/server/file/file_transfer.c:377-415 | an honest upload to 279 characters, reached from nothing, leaves a count of 1 that no path has |
| StoreRuns.NextKeepsWorld | src/server/core/session.c:541-626 | one request of any user keeps the store, all sessions, and agreement with what the users were told |
| StoreRuns.RunKeepsWorld | src/server/core/session.c:541-722 | over any run by any users, every user sees exactly the drive of a store without sharing |
| StoreRuns.EveryRunKeepsStore | src/server/data/db_init.c:58-77 | from empty tables, every proper run keeps tree, links, counts and blobs |
| StoreRuns.CountsAlways | src/server/data/db_init.c:58-77 | along any run by any senders, honest or not, every count is the number of rows naming the file, no row has count 0, every row's file exists and the keys are unique, as long as upload paths fit their column |
| StoreRuns.UploadIsReadBack | src/server/file/file_transfer.c:427-571 | after a successful puts a download delivers those bytes, whatever anybody does elsewhere, until the user touches that path |
| StoreRuns.FirstUploadIsReadBack | src/server/file/file_transfer.c:604-892 | the first command ever, a whole upload under any legal name, succeeds and reads back |
| StoreRuns.CdUpSucceeds | src/server/file/file_cmds.c:309-311 | in every reachable state cd .. succeeds and leads to the parent path |
| StorageServer.NetDisk.DaoCreateNode | src/server/data/dao_vfs.c:104-139 | a row that is taken in has an id no other row has, joins the references of its own file only and leaves all other rows alone; ids stay unique; a refusal changes nothing |
| StorageServer.NetDisk.DaoDeleteNode | src/server/data/dao_vfs.c:218-224 | because ids are unique, the table loses exactly the one key whose row has that id, or nothing |
| StorageServer.NetDisk.DaoFileFindBySha256 | src/server/data/dao_file.c:15-45 | finds the row of that hash if there is one |
| StorageServer.NetDisk.DaoFileInsert | src/server/data/dao_file.c:54-71 | a new row with count 1, refused for a known hash |
| StorageServer.NetDisk.DaoFileAddRefCount | src/server/data/dao_file.c:78-87 | releasing the file once takes the tables back to where they were |
| StorageServer.NetDisk.DaoFileSubRefCount | src/server/data/dao_file.c:94-104 | adding the reference again takes the tables back to where they were; a count of zero stays |
| StorageServer.NetDisk.HandleCd | src/server/file/file_cmds.c:300-342 | tables, session and answer are those of the specified cd |
| StorageServer.NetDisk.HandleMkdir | src/server/file/file_cmds.c:351-383 | tables, session and answer are those of the specified mkdir |
| StorageServer.NetDisk.CreateUserFileLink | src/server/file/file_transfer.c:346-366 | path row and count together, or nothing |
| StorageServer.NetDisk.CreateEmptyFileNode | src/server/file/file_cmds.c:190-262 | the empty blob, its row or one more on it, and the path row, for every target, refused ones included |
| StorageServer.NetDisk.CreateFirstEmptyFileNode | src/server/file/file_cmds.c:236-261 | when the path row is refused, the file row inserted for it is gone again |
| StorageServer.NetDisk.HandleTouch | src/server/file/file_cmds.c:392-427 | tables, session and answer are those of the specified touch |
| StorageServer.NetDisk.ReleaseFileEntityIfUnused | src/server/file/file_cmds.c:142-184 | one reference less; the last one takes row and blob along |
| StorageServer.NetDisk.HandleRm | src/server/file/file_cmds.c:436-477 | tables, session and answer are those of the specified rm, which succeeds exactly as CommandSuccess.RmSucceedsIff says |
| StorageServer.NetDisk.HandleRmdir | src/server/file/file_cmds.c:486-528 | tables, session and answer are those of the specified rmdir |
| StorageServer.NetDisk.ReceiveUpload | src/server/file/file_transfer.c:826-878 | extend, receive, cut back: the file keeps its old bytes and gains what arrived, however it was chunked, and no byte beyond the announced size is taken off the connection |
| StorageServer.NetDisk.FinishUploadDbWork | src/server/file/file_transfer.c:377-415 | file row or reference, then the path row, then the source registration, with what each failure leaves behind |
| StorageServer.NetDisk.ReceiveAndFinish | src/server/file/file_transfer.c:755-892 | blob and tables are those of the specified upload, and what is taken off the connection is exactly what was missing |
| StorageServer.NetDisk.OpenPuts | src/server/file/file_transfer.c:604-753 | the answer, the offset in it and everything up to it are those of the specified puts |
| StorageServer.NetDisk.HandlePuts | src/server/file/file_transfer.c:604-892 | tables, blobs, result and the packet the client gets are those of the specified puts, for every argument, size, hash and stream, and it takes off the connection exactly the bytes it waits for, none after a refusal or an instant upload |
| SocketIo.Outgoing.SendFull | src/common/protocol.c:63-82 | what goes out is the data up to where the connection ends |
| SocketIo.SendFileBySendfile | src/server/file/file_transfer.c:185-214 | exactly file[offset..end) goes out, or its longest prefix the connection carries, under any partial and interrupted sends |
| SocketIo.SendFileByMmap | src/server/file/file_transfer.c:225-270 | the same bytes in blocks |
| SocketIo.SendFileByReadLoop | src/client/client_puts.c:65-113 | the same for the client's read loop with short reads |
| SocketIo.Incoming.RecvFull | src/common/protocol.c:91-110 | all the bytes asked for, or failure with the connection used up |
| SocketIo.DiskFile.WriteFull | src/server/file/file_transfer.c:160-174 | all bytes land at the position, short writes or not |
| Text.AtollOfDecimal | src/client/multipart_meta.c:283-299 | a printed number, sign included, reads back as itself before anything that is not a digit |
| Text.WholeLine | src/client/multipart_meta.c:306-382 | a line shorter than the buffer is read whole |
| Text.CutLine | src/client/multipart_meta.c:306-382 | a longer one is cut at the buffer's length |
| MetaIni.ParseRestores | src/client/multipart_meta.c:251-274 | a value that fits its buffer is written; the line counts as read if, and only if, its line end fits too |
| MetaIni.LoadHash | src/client/multipart_meta.c:251-382 | the hash line restores the hash although it is offered to every later field as well |
| MetaIni.OtherPart | src/client/multipart_meta.c:333-378 | a part's line is never taken by another part |
| MetaIni.LoadParts | src/client/multipart_meta.c:306-382 | the part lines restore all five fields of all parts, whatever was there before |
| MetaIni.LoadTail | src/client/multipart_meta.c:306-382 | everything after the name line comes back, whatever the name line left behind |
| MetaIni.SaveThenLoad | src/client/multipart_meta.c:208-382 | load after save restores every persisted field; the name if, and only if, it has at most 245 characters |
| MetaIniCut.CutFile | src/client/multipart_meta.c:208-382 | reading any beginning of a saved file, as a killed client leaves it, gives the whole task but for the end of its last port, or leaves that port empty and the part count zero or right |
| RangeSplit.PartsTile | src/client/multipart_meta.c:150-201 | the ranges follow each other without gap or overlap from 0 to the file size |
| RangeSplit.PartsAreEven | src/client/multipart_meta.c:150-201 | lengths differ by one byte at most |
| RangeSplit.NoEmptyPartIff | src/client/multipart_meta.c:150-201 | no part is empty if, and only if, there are no more parts than bytes |
| RangeSplit.SlicesJoin | src/client/client_gets.c:277-325 | the slices one after the other are the file |
| RangeSplit.RequestedRangeIsAccepted | src/server/core/session.c:148-150 | a part's range passes both range checks of the server if, and only if, the part has a byte |
| PartDownload.PrepareGivesFreshRanges | src/client/multipart_meta.c:467-528 | a meta.ini, cut off or not, is taken over only by a plan with its number of sources, and then has the ranges of a fresh split; with any other number the task is split afresh |
| PartDownload.PreparedFollowsPlan | src/client/multipart_meta.c:423-528 | whatever was on disk, a prepared task has the plan's name, hash and size and asks the plan's sources, in order; every usable plan is prepared |
| PartDownload.PrepareResumesIff | src/client/multipart_meta.c:423-506 | a saved task is carried on, with its own ranges and the progress its part files show, if, and only if, name, hash, size and every address are those of the plan; otherwise the plan is split afresh |
| PartDownload.TakenOver | src/client/multipart_meta.c:508-527 | under a plan that can take them over, part files stay beginnings of their new ranges, those left by plans before it included |
| PartDownload.FetchKeepsPrefix | src/client/client_gets.c:115-233 | a connection that ends anywhere leaves a prefix of the range no shorter than before; one that carries everything completes it |
| PartDownload.NextKeepsClient | src/client/client_gets.c:353-519 | plan, transfer, refresh, finish and stop, also in the middle of saving meta.ini or of cleaning up, and any change to a plan that can take over, keep every part file a prefix of its own range and meta.ini's ranges right |
| PartDownload.RunKeepsClient | src/client/client_gets.c:353-519 | the same over any run of interrupted, resumed, replanned and finished downloads |
| PartDownload.FinishedMergesIff | src/client/client_gets.c:277-346 | once all parts are finished the merge is the server's file if the file has a byte per source, and fails otherwise |
| PartDownload.OneByteTwoSourcesNeverMerge | src/client/client_gets.c:301 | one byte from two sources, from an empty directory: after one transfer all parts are finished and the merge fails |
| PartDownload.DownloadDeliversTheFile | src/client/client_gets.c:353-519 | from an empty directory, any run that ends with all parts finished merges to exactly the server's file, under that condition |
| PartDownload.FullFetchFinishes | src/client/client_gets.c:115-233 | a connection that carries all that is missing finishes its part |
| PartDownload.WholePartsFinish | src/client/client_gets.c:277-346 | whole part files, with a byte for every source, are finished and merge to the file |
| PartDownload.FetchStartsOver | src/client/client_gets.c:151-193 | a part file longer than its range is fetched from its beginning |
| DownloadRounds.RoundCompletes | src/client/client_gets.c:353-519 | from whatever earlier rounds left, one round whose connections hold finishes every part, merges to the file if there is a byte for every source, and clears the task away |
| PlanChange.SameCountFollows | src/client/multipart_meta.c:508-527 | a plan with as many sources as the task on disk can always follow it, whatever its addresses |
| PlanChange.TakeOverIsSafeIff | src/client/multipart_meta.c:508-527 | part files of a split into n parts, whole or not, fit a split into m parts for every content if, and only if, the old ranges begin where the new ones do and are no longer |
| PlanChange.OtherSourceCountCorrupts | src/client/multipart_meta.c:508-527 | one source, fetched whole, then two, on any four bytes and from an empty directory: everything counts as finished, the merge is six bytes, and the first part is spoiled |
| PlanChange.SpoiledForGood | src/client/client_gets.c:353-519 | a finished part with wrong bytes outlives every later run with that number of sources, and no such run merges to the file |
| MultipartTask.Task.InitPartsFromPlan | src/client/multipart_meta.c:150-201 | the loop's running start and remainder give the ranges of the split, and refuse what the code refuses |
| MultipartTask.Task.SaveMetaFile | src/client/multipart_meta.c:208-241 | emptied first and filled line by line, the file ends as the text of the fields held in memory |
| MultipartTask.Task.ReadMetaLine | src/client/multipart_meta.c:306-382 | one line changes what the specified reader says |
| MultipartTask.Task.LoadMetaFile | src/client/multipart_meta.c:306-382 | reading in pieces of 255 characters is the specified reading of the text |
| MultipartTask.Task.SyncFinishedBytes | src/client/multipart_meta.c:389-415 | progress becomes the size of each part file, at most the part's |
| MultipartTask.Task.IsMetaCompatible | src/client/multipart_meta.c:423-458 | true if, and only if, the loaded task is one that the specified preparation takes over; which those are is PartDownload.PrepareResumesIff |
| MultipartTask.Task.TaskPrepare | src/client/multipart_meta.c:467-528 | what is in memory and in meta.ini is that of the specified preparation, and names the plan's file and asks the plan's sources, ip and port, in order; part files are left alone |
| MultipartTask.Task.StartGets | src/client/client_gets.c:427-472 | preparing and refreshing is one Start step of the download, succeeds for every usable plan, and leaves a task that asks the plan's sources |
| MultipartTask.Task.AllPartsFinished | src/client/client_gets.c:332-346 | true if, and only if, every part is finished |
| MultipartTask.Task.MergePartFiles | src/client/client_gets.c:277-325 | all part files in order, or failure when one is missing |
| MultipartTask.Task.CleanupTask | src/client/multipart_meta.c:554-576 | meta.ini and exactly the part files of this download go |
| MultipartTask.Task.FinishGets | src/client/client_gets.c:353-419 | one Finish step of the download; with a byte for every source and whole part files it hands out the content, if its hash is the announced one; a file comes out only when all parts are finished and the merge hashes right, otherwise parts and progress are kept |
| MultipartTask.ReceivePart | src/client/client_gets.c:195-228 | the file grows by the whole blocks that arrived, a last shorter one included, and no byte beyond the part is taken off the connection |
| MultipartTask.LessThanABlockIsLost | src/client/client_gets.c:202-224 | of what a connection brought in before it ended, less than 4096 bytes are lost |
| MultipartTask.RunGetsPartTransfer | src/client/client_gets.c:115-233 | what is on disk afterwards, the offset asked for, complete if, and only if, all missing bytes came, and exactly the missing bytes taken off the connection |
| MultipartTask.TransferIsFetch | src/client/client_gets.c:115-233 | against a server that sends its range from that offset, this is a Fetch step |
| FileTransfer.HandleGets | src/server/file/file_transfer.c:427-571 | announces the size of the allowed range and sends exactly its rest from the client's offset, or refuses |
| FileTransfer.WhatIsAllowed | src/server/file/file_transfer.c:484-533 | a range is refused exactly when it leaves the file, a ticket without one allows everything, and an offset that makes no sense means the beginning |
| FileTransfer.DownloadHandshakeAgrees | src/server/file/file_transfer.c:506-562 | the server serves the offset the client asks for and sends as many bytes as RunGetsPartTransfer takes off the connection |
| FileTransfer.TransferPart | src/client/client_gets.c:143-228 | server loop, wire and client loop together are one Fetch step, complete if, and only if, the connection carries what was missing, and no byte sent is left unread |
| FileTransfer.RunPutsTransfer | src/client/client_puts.c:176-293 | sends the file from the answered offset on, nothing after an instant upload or a refusal |
| FileTransfer.UploadHandshakeAgrees | src/client/client_puts.c:219-280 | in every state of the server the client sends as many bytes as HandlePuts takes off the connection |
| FileTransfer.TransferUpload | src/client/client_puts.c:176-293 | answer, client loop, wire and server loop together: the tables of the specified puts, both sides done if, and only if, the connection carries what was missing, and no byte sent left unread |
| FileTransfer.UploadSucceedsIff | src/server/file/file_transfer.c:733-892 | an upload of awaited content succeeds if, and only if, the connection carries what is missing and the server can register itself |
| FileTransfer.FollowingClientIsHonest | src/client/client_puts.c:176-293 | the protocol's own client is the honest sender that the store theorems ask for |
| TicketSpec.UsedAtMostOncePerIssue | src/server/security/transfer_ticket.c:171-242 | over any interleaving an id succeeds at most as often as it was successfully registered |
| TicketSpec.LivesUntilExpiry | src/server/security/transfer_ticket.c:66-75 | an untouched ticket is in the table if, and only if, no clock reading since was on or after its expiry |
| TicketSpec.RegisteredIff | src/server/security/transfer_ticket.c:132-147 | a ticket is registered if, and only if, fewer than 1024 unexpired, unused ones are left, is then good for 30 seconds, and touches no other |
| TicketSpec.TicketLife | src/server/security/transfer_ticket.c:102-242 | registered, then anything else, then used: it succeeds if, and only if, every clock reading is before the expiry, and it is gone afterwards |
| TicketSpec.NeverIssuedNeverUsed | src/server/security/transfer_ticket.c:171-242 | an id never registered, be it that the table was full each time, never succeeds |
| TransferTicket.NoFreeSlotIff | src/server/security/transfer_ticket.c:81-91 | no slot is free if, and only if, the map holds as many tickets as there are slots |
| TransferTicket.SweptSlots | src/server/security/transfer_ticket.c:66-75 | clearing the expired slots is the sweep of the map |
| TransferTicket.FilledSlot | src/server/security/transfer_ticket.c:138-152 | filling a free slot adds exactly that id to the map |
| TransferTicket.ClearedSlot | src/server/security/transfer_ticket.c:206-236 | clearing a slot removes exactly its id |
| TransferTicket.TicketTable.CleanupExpired | src/server/security/transfer_ticket.c:66-75 | afterwards the map holds exactly the tickets that expire later than now |
| TransferTicket.TicketTable.AllocSlot | src/server/security/transfer_ticket.c:81-91 | a free slot, or none if, and only if, all are taken |
| TransferTicket.TicketTable.Issue | src/server/security/transfer_ticket.c:102-160 | the map gains id and expiry; registration fails exactly when 1024 unexpired, unused tickets remain |
| TransferTicket.TicketTable.Consume | src/server/security/transfer_ticket.c:171-242 | succeeds exactly for an id held and unexpired, and takes it out of the map |
| RangeRequest.RequestReadsBackIff | src/client/client_command_handle.c:305-326 | the server reads back what the client built if, and only if, name, ip and port are non-empty and free of the separator, the range is in order, and everything fits its buffer |
| RangeRequest.ParsedIsSendable | src/server/core/session.c:96-153 | whatever text comes in, an accepted request has non-empty fields free of the separator that fit, and a range in order |
| RangeRequest.Strtok | src/server/core/session.c:118-146 | the cursor loop finds the next token of the text and where to go on |
| RangeRequest.ParseGetsRangeTicketRequest | src/server/core/session.c:96-153 | the five tokens, the numbers and the range check in order give the specified parse |
| SessionAgreement.ClientState.UpdatePathAfterCd | src/client/client_command_handle.c:58-96 | the client's path after a successful cd |
| SessionAgreement.ClientState.FinishLogin | src/client/client_command_handle.c:151-175 | after a first login the client shows the path the server then has, after a refused one still the path the server had |
| SessionAgreement.ClientState.Hear | src/client/client_command_handle.c:151-214 | whatever request is answered, with or without a login before it, a client that showed the server's directory shows it again |
| SessionAgreement.CdMovesBoth | src/server/file/file_cmds.c:300-342 | for "..", ".", absolute and relative arguments the server's new path is the client's |
| SessionAgreement.ClientFollowsServer | src/client/client_command_handle.c:58-96 | client and server show the same directory after every run of commands, new connections and logins over live sessions that are at the root |
| SessionAgreement.LoginKeepsSessionIff | src/server/core/session.c:564-574 | when a granted login leaves the session in a directory of the new user |
| SessionAgreement.LoginAgreesIff | src/client/client_command_handle.c:43-50 | a client that showed the server's directory still does after the answer to a login if, and only if, it was refused, nobody was logged in, or the session was at the root |
| SessionAgreement.LoginOverLiveSessionDisagrees | src/server/core/session.c:564-574 | user 2 logs in over user 1 in /a: the server keeps a directory user 2 does not have, the client shows the root |
| SessionAgreement.BarredNameIsStoredButNotRequested | src/server/core/session.c:96-153 | a file named a&#124;b is uploaded and read back, but a range request for it does not arrive as sent |
| SessionAgreement.SplitOfJoin | src/server/core/session.c:413-446 | splitting a built full path gives back directory and name |
| SessionAgreement.FullPathIff | src/server/core/session.c:58-81 | a path is authorised for every single name, as long as the joined path fits its buffer |
| SessionAgreement.TransferSeesTheAuthorisedRow | src/server/core/session.c:58-81 | from the authorised path alone the transfer connection gets the control connection's very session, directory id included, and rebuilds the same path |
| SessionAgreement.RestoredIffDirectoryRemains | src/server/core/session.c:456-492 | when tables changed in between, the context is restored if, and only if, the directory still exists, and then stands in it |
| TransferRuns.UploadKeepsServer | src/server/core/session.c:633-722 | an upload with a ticket keeps the store, every session, the user's own included, and every path but the authorised one |
| TransferRuns.AfterKeepsServer | src/server/core/session.c:363-402 | command, authorisation and transfer each keep store, sessions, view and the well-formedness of every token's path |
| TransferRuns.AfterAllKeepsServer | src/server/core/session.c:541-722 | the same over any run, with any number of tickets pending while their users move on |
| TransferRuns.OneTransferPerTicket | src/server/security/transfer_ticket.c:102-242 | over any run a ticket lets in at most one transfer, and only if it was handed out |
| TransferRuns.AuthorisedTransfer | src/server/core/session.c:456-492 | whatever happened since, a transfer works in the directory and on the name it was authorised for, if, and only if, no clock reading came to the expiry and the user still has a directory of that path |
| TransferRuns.TicketedUploadSucceedsIff | src/server/core/session.c:633-722 | with its directory there, an upload is let in if, and only if, its ticket is held and unexpired, and then succeeds exactly under the conditions of puts |
| TransferRuns.TransferIsReadBack | src/server/file/file_transfer.c:427-571 | after a successful upload with a ticket, and until the user names that path again, every gets ticket for it delivers the content |
| TransferRuns.DeliveredIff | src/server/file/file_transfer.c:427-482 | a gets ticket delivers some bytes if, and only if, its path looks like a file of these bytes |
| TransferRuns.UploadGoesWhereItWasAuthorised | src/server/core/session.c:58-81 | authorised in the root, used after mkdir a and cd a: the file is in the root and the user stays in /a |
| TransferRequest.HandleTransferRequest | src/server/core/session.c:633-722 | consume, rebuild the context, run the upload: the ticket is gone in any case, and tables, result and bytes taken are those of the specified puts in the restored context, or nothing changes |
| TransferRequest.RequestIsTransfer | src/server/core/session.c:633-722 | those effects are the Transfer act of the runs above |
| WorkerPool.StepConserves | src/server/core/worker.c:35-88 | no step loses or doubles a connection |
| WorkerPool.StepKeepsOk | src/server/core/worker.c:35-88 | conservation, order and enough awake workers are kept by every step, shutdown included |
| WorkerPool.RunKeepsOk | src/server/core/worker.c:22-96 | the same over all interleavings |
| WorkerPool.NoLostWakeup | src/server/core/server.c:279-286 | if something is queued while a worker sleeps, some worker is about to take it |
| WorkerPool.ExactlyOnePlace | src/server/core/worker.c:22-96 | every accepted connection is at every moment in exactly one place: queued, held by one worker, or closed |
| WorkerPool.AllClosedOnceAtEnd | src/server/core/server.c:469-518 | when all workers are gone every accepted connection has been closed, once |
| WorkerPool.ShutdownEnds | src/server/core/server.c:469-518 | after the exit signal every step comes nearer the end, and while a worker is left a step can be taken |
| WorkerProgress.WorkersNeverStall | src/server/core/worker.c:33-95 | after any run before the exit signal all workers are still there, and while something is queued one of them can serve, clear its entry or take the next |
| WorkerProgress.HeadIsTaken | src/server/core/worker.c:33-95 | the oldest queued connection is taken within a fixed number of workers' steps, however many come in meanwhile |
| WorkerProgress.ServedThenNext | src/server/core/worker.c:74-95 | a worker that has served a connection can close it, clear its entry and take the next |
| WorkerPool.FirstInFirstOut | src/server/net/queue.c:10-67 | connections are taken, and the rest drained, in the order they were accepted |
| TaskQueue.Queue.EnQueue | src/server/net/queue.c:10-32 | the linked list gains the descriptor at its end |
| TaskQueue.Queue.DeQueue | src/server/net/queue.c:39-67 | the oldest descriptor comes out, -1 only from an empty queue |
| TaskQueue.ThreadPool.Enqueue | src/server/core/server.c:279-286 | queueing and signalling is the Accept step, for whichever waiter is woken |
| TaskQueue.ThreadPool.NextTask | src/server/core/worker.c:35-60 | one pass through the lock is a Sleep, Leave or Take step; who sleeps is a waiter, the queue is never dequeued while empty, and the busy entry is the descriptor taken |
| TaskQueue.ThreadPool.WakeUp | src/server/core/worker.c:39-41 | a waiter that returns without a signal no longer waits, and that is the Wake step |
| TaskQueue.ThreadPool.Signal | src/server/core/server.c:282 | exactly one waiter, if there is any, stops waiting |
| TaskQueue.ThreadPool.Close | src/server/core/worker.c:77-81 | closing what the worker holds is the Close step |
| TaskQueue.ThreadPool.Clear | src/server/core/worker.c:83-88 | clearing the busy entry is the Clear step, after which the worker is back at its test of the queue |
| TaskQueue.ThreadPool.DrainAtExit | src/server/core/server.c:475-492 | drain and broadcast are the Exit step: everything queued is closed, in order, and nobody waits any more |

## Left out

- Sockets, epoll, timerfd, pipe, fork, signals and `setsockopt` timeouts: a connection is modelled by how many bytes it still carries, and events by calls.
- MySQL, its connection pool and the SQL text: the tables are maps with the unique keys of src/server/data/db_init.c; comparison is exact, so case-insensitive collation, quoting inside SQL and the hex form of the hash column are not captured. Over-long values are refused, as in strict mode; no other database error happens.
- JWT, OpenSSL, `sha256sum` and password hashing: opaque, or a function from hash to content. Registration, passwords and the checks of `handle_login` are not modelled; a login is either granted or refused.
- Local disk errors (open, lseek, mmap, write) and a crash between extending a file and cutting it back: the code leaves the extended file behind there, so nothing is claimed.
- Two uploads of one hash at the same time, two live control sessions of one user, and two `gets` of one file at the same time: a command, an authorisation and a transfer are each atomic, though any number of acts may lie between the last two.
- Several servers sharing the tables: blobs and counts are modelled for one server; the `file_sources` table is not modelled, a registration in it succeeds or fails; the plan handed to the client and the source address checks are taken as given.
- Buffer sizes and memory safety: strings are unbounded, and the 256-byte path buffers appear as preconditions or as explicit checks where the code has them.
- `atoll` on numbers that do not fit, and overflow of `off_t` and of the tick counter.
- Receiving into a mapped file, used above 100 MB, is modelled by the same writes as the small-file path.
- Threads of one download: transfers of different parts touch different files and are modelled one after the other; the final file, which a merge that fails or is interrupted leaves incomplete, is the result of the merge only.
- The condition variable is modelled by waking one sleeper per signal and by wake-ups without a reason; `shutdown` on busy descriptors at exit only shortens what workers do.
- `ls`, `pwd`, messages, menus, logging, configuration and packet layouts: plumbing.
- StorageServer.NetDisk.HandleRmdir: takes tables without a row for "/", which the tree invariant gives.
- ControlPlane.ControlServer.RegisterControlConnection: takes a descriptor under which nothing is registered, which the kernel gives.
- TransferTicket.TicketTable.Issue: takes an id that is not in the table, which random 128-bit ids give with overwhelming probability only.
- PartDownload.RunKeepsClient: takes plans that can take over what is on disk; PlanChange says what happens otherwise.
- StoreSteps.StepKeepsStore: takes proper commands (see Assumptions); the Iff lemmas and StoreRuns.CountsAlways say what happens otherwise.
