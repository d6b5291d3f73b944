# A verified model of the network disk

The repository is a network disk: a reactor server, a load balancer and a Qt client. This
project models its stateful cores in Dafny and proves what they are for.

- **Upload and download.** `Upload.dfy` has the threads that receive chunks, interleaving at
  every claim, byte copied, acknowledgement, check and compare-and-swap; `UploadOutcome.dfy` has
  what becomes of the file for any deliveries, and `UploadTwice.dfy` for the ordinary path, which
  sends every chunk twice; `Download.dfy` has the
  sending thread, the threads that handle PAUSE, RESUME and CANCEL, the channel and the client's
  file. `Chunks.dfy` has the chunk arithmetic in the programs' integer widths, the client's send
  loop and its acknowledgement bookkeeping; `Connection.dfy` has the connection's atomic fields.
- **File store.** `MyDB.dfy` has a user's tables as maps, the directory tree, the used capacity
  and the content files shared by hash, with the recursive directory delete. `FileServer.dfy` runs
  many connections against it and settles who owns each content file, and exactly what clients must
  keep to for that; `Records.dfy` ties the rows to the requests; `Capacity.dfy` settles when the
  uploads fit the capacity, and what follows when not.
- **Byte stream to PDUs.** `Bytes.dfy` (byte order), `Wire.dfy` (the frame format and its meaning),
  `Serializer.dfy` (the moving-pointer code), `Buffer.dfy` (the receive buffer), `EventLoop.dfy`
  (framing and dispatch), `Requests.dfy` (the PDUs the client builds and the tools they reach).
- **Heaps.** `IndexedHeap.dfy` (array heap with index, ties included), `ServerHeap.dfy`,
  `Timer.dfy`, and `Equalizer.dfy`, the balancer's event loop.
- **Client.** `FileSystem.dfy` (folder sizes kept up to date) and `TaskQue.dfy` (the thread pool as
  a monitor). `Sums.dfy` and `Options.dfy` are helpers.

Concurrent parts are state machines: a step function, runs of arbitrary schedules, an invariant,
and classes whose methods are proved to perform exactly the steps. Sequential objects are classes
proved against value-level specifications. Methods take what comes from outside (reads, clock
readings, schedules, arriving PDUs) as parameters.

## Where the code differs from its comments

- `PDU_BODY_BASE_LEN` announces 152 bytes but 148 and the message are written
  (`NetDisk-Server/Server/code/protocol.h:121`): a short PDU carries four bytes of slack, and the
  results hold for whatever stands there.
- `Timer::getNextTick` is commented to return 0 for an overdue timer
  (`NetDisk-Server/Server/code/timer/Timer.cpp:101-111`), but the maximum is taken of unsigned
  values: `NegativeTickIff` says when a negative number comes back, and when -1 does not mean that
  there is no timer.
- `Timer::__del` may remove the parent of a timer in the last slot
  (`NetDisk-Server/Server/code/timer/Timer.cpp:121-128`); `VictimIsAsked` says exactly when.
- `insertFileData` says a row with a missing parent is put in the root, but keeps the missing parent
  id (`NetDisk-Server/Server/code/sql/MyDB.cpp:66-69`): `InsertKeepsTreeIff` and
  `InsertKeepsDirsIff` say what that costs. Under an id that was just freed a directory becomes its
  own parent, and deleting it never returns: `OwnParentExample`, `DeletionReturnsIff`.
- An upload is answered twice, so the client sends everything twice
  (`NetDisk-Server/Server/code/tool/LongTaskTool.cpp:58-92`,
  `NetDisk-Client/ToolClass/UdTool.cpp:188-193`). Then, but for files of one chunk and zeros, a
  finished upload need not hold the source and need not finish: `TwiceStoresIff`,
  `StoresSourceIff`, `RetransmissionExample`, `NeverFinishesExample`.
- The reply that starts a download announces eight bytes more than its message has, and `serialize`
  reads past the message (`NetDisk-Server/Server/code/tool/LongTaskTool.cpp:368-374`);
  `GetsReplyRead` says why the client is not misled.
- An upload request for an empty file, or for a size past the signed range, leaves an unowned
  content file behind (`NetDisk-Server/Server/code/tool/LongTaskTool.cpp:156-181`);
  `RequestKeepsOwnershipIff`.
- A chunk longer than the file passes the check against the total, whose unsigned difference wraps
  around (`NetDisk-Server/Server/code/tool/LongTaskTool.cpp:229`); `OverlongChunkIff`, `ClaimsWithinIff`.
- A request without a hash is taken for known content as soon as there is a directory
  (`NetDisk-Server/Server/code/sql/MyDB.cpp:267-275`), and a request for known content may state any
  size, which deleting then gives back: `EmptyHashIff`, `SizeOfHashIff`, `GivenBackIff`.
- `deleteOneDir` with the id of a file drops the row only; `DeleteDirOfFileUsed` and
  `DeleteDirOfFileOwned` say when that does harm. Together these are all: `StepKeepsIff`, `RunKeepsIff`.
- The client cuts a file's type from its whole name
  (`NetDisk-Client/WidgetClass/FileSystem.cpp:108`), the server only behind a dot
  (`NetDisk-Server/Server/code/tool/AbstractTool.cpp:9-13`). A file named "d" is stored and taken for
  a folder, its size is counted where recomputing would not, and deleting it asks for a directory
  (`NetDisk-Client/WidgetClass/FileSystem.cpp:511-512`): `TakenForFolderIff`, `NamedFolderIff`,
  `NamedFolderExample`, `NamedFolderDeletion`.
- The capacity check ignores pending uploads: `RunWithinIff`, `PassableIff`, `OverlapExample`. Past
  the capacity it allows nearly everything: `EnoughSpaceIff`, `PassedNeverRefuses`.
- A call that reads bytes and then zero bytes returns 0, and the connection is closed without looking
  at the bytes (`NetDisk-Server/Server/code/server/EventLoop.cpp:347-349`, lines 84-88): the last
  frames of a client that closes right behind them can be lost; `ServeIsCutIff`, `ArrivesInOrder`,
  `LostFrameExample`.
- No message length is checked against the field it is copied into or the buffer it is read from
  (`NetDisk-Server/Server/code/tool/Serializer.cpp:119`, lines 204 and 543): `OverrunIff`,
  `StaysWithinIff`, `OverrunExample`.
- A control of a download checks the status and sets it in two steps, and sets it outside the mutex
  of the wait: `FinLostIff` and `EndStatusChangesIff` for the final status, `StuckIff` for downloads
  that sleep on for good.
- A control handled before the sending thread looks at the status keeps the download from ever
  starting (`NetDisk-Server/Server/code/tool/LongTaskTool.cpp:465`): `NotStartedIff`,
  `NeverStartedExample`.
- The client opens a download's file without truncating it
  (`NetDisk-Client/ToolClass/DownTool.cpp:284`); `AllReceived` says when the end of an older, longer
  file spoils the result.

## Model

| member | source | states |
|---|---|---|
| UploadOutcome.UploadCorrect | NetDisk-Server/Server/code/tool/LongTaskTool.cpp:200-298 | each chunk delivered once, in any order, and any interleaving of the claim, copy, ack, check and swap steps of any number of threads: once all threads are through, none was turned away, the status has left DOING, one row was inserted, one PUTS_FINISH was sent, and the mapped file is the source |
| UploadOutcome.HandledEachOnce | NetDisk-Client/ToolClass/SR_Tool.cpp:256-304 | what the client's send loop sends, handled by the pool in any order, is each chunk once, each with the upload code, the number and count of chunks, its place, length and bytes: the hypothesis of the result above |
| Upload.Safety | NetDisk-Server/Server/code/tool/LongTaskTool.cpp:219-298 | whatever chunks of the file are delivered, under every schedule and at every moment: the handled size never exceeds the file size, there is at most one row and one PUTS_FINISH, and a row exists only when every byte is claimed and the status has left DOING |
| Upload.ClaimsWithinIff | NetDisk-Server/Server/code/tool/LongTaskTool.cpp:219-232 | for data PDUs of any lengths: over every order in which they claim, the handled size stays within the file exactly if no PDU is longer than the whole file; for a longer one the unsigned difference wraps around |
| Upload.AllAcceptedIff | NetDisk-Server/Server/code/tool/LongTaskTool.cpp:200-232 | no delivery is refused or skipped exactly if the delivered bytes do not exceed the file size, for every schedule |
| UploadOutcome.StoresSourceIff | NetDisk-Server/Server/code/tool/LongTaskTool.cpp:200-298 | for any deliveries: every complete run finishes with the source stored exactly if each maximal set of deliveries that fits the file fills it and leaves out only chunks of zeros |
| UploadTwice.TwiceStoresIff | NetDisk-Server/Server/code/tool/LongTaskTool.cpp:58-92 | the ordinary path, where the request is answered twice and every chunk is sent twice: every complete run stores the source exactly if the file has one chunk, or only full chunks of zeros |
| UploadOutcome.QuietOutcome | NetDisk-Server/Server/code/tool/LongTaskTool.cpp:219-298 | for any deliveries, in every complete run: the accepted deliveries are a maximal set that fits, the file has the source bytes in exactly the chunks they carry and zeros elsewhere, and the status has left DOING, with one row and one PUTS_FINISH, exactly if they fill the file |
| UploadOutcome.CanBeTaken | NetDisk-Server/Server/code/tool/LongTaskTool.cpp:219-232 | every maximal set of deliveries that fits is what some complete run accepts |
| UploadOutcome.ContentIff | NetDisk-Server/Server/code/tool/LongTaskTool.cpp:256-264 | a complete run has finished with the source stored exactly if the deliveries it accepted fill the file and leave out only chunks of zeros |
| UploadOutcome.RetransmissionExample | NetDisk-Server/Server/code/tool/LongTaskTool.cpp:256-264 | the weakness the code's own comment names: one chunk sent again besides the others, and a run that finishes without the other chunk |
| UploadOutcome.NeverFinishesExample | NetDisk-Server/Server/code/tool/LongTaskTool.cpp:229-232 | deliveries of every chunk, and a run in which the upload never finishes |
| UploadOutcome.ExactDeliveries | NetDisk-Server/Server/code/tool/LongTaskTool.cpp:219-298 | as many bytes delivered as the file has: none is turned away and the upload finishes, with the delivered chunks in the file and zeros elsewhere |
| UploadOutcome.ExactContentIff | NetDisk-Server/Server/code/tool/LongTaskTool.cpp:256-264 | then the stored file is the source exactly if the chunks that never came are zero |
| UploadOutcome.AcknowledgedOnce | NetDisk-Server/Server/code/tool/LongTaskTool.cpp:234-253 | with each chunk delivered once no chunk is acknowledged twice at any moment of any run, and in the end each has been acknowledged |
| Upload.StatusForward | NetDisk-Server/Server/code/tool/LongTaskTool.cpp:259-266 | no step in a reachable state takes the status anywhere but from DOING to FIN, by the thread that wins, and from FIN to CLOSE, exactly by the client's confirmation |
| Upload.RunInv | NetDisk-Server/Server/code/tool/LongTaskTool.cpp:200-298 | the whole invariant (claimed bytes, single winner, file content per thread, someone left to swap, acknowledgements) holds over every run |
| Upload.StepDoesWork | NetDisk-Server/Server/code/tool/LongTaskTool.cpp:200-298 | every step of an unfinished thread takes work away, so only finitely many are possible |
| Upload.BecomesQuiet | NetDisk-Server/Server/code/tool/LongTaskTool.cpp:200-298 | from every state some schedule brings all threads to their end |
| Upload.UploadTask.Advance | NetDisk-Server/Server/code/tool/LongTaskTool.cpp:200-298 | the next atomic action of one thread on the shared connection, mapped file and row count is the step the results are about |
| Upload.UploadTask.PutsFinish | NetDisk-Server/Server/code/tool/LongTaskTool.cpp:309-328 | the client's confirmation turns FIN into CLOSE, and nothing else changes |
| Upload.UploadTask.Execute | NetDisk-Server/Server/code/tool/LongTaskTool.cpp:200-328 | any interleaving of these actions computes the run of the schedule |
| Connection.UpDownCon.CmpExchange | NetDisk-Server/Server/code/pool/UpDownCon.cpp:235-239 | swaps exactly if the status is the expected one |
| Connection.UpDownCon.LessEqualAddTaskHandleSize | NetDisk-Server/Server/code/pool/UpDownCon.cpp:132-139 | adds exactly if the handled size is at most the bound, else leaves it alone |
| FileServer.OwnershipOverRuns | NetDisk-Server/Server/code/tool/LongTaskTool.cpp:103-187 | after any run of many connections uploading, quick-uploading, finishing, disconnecting and deleting, directories of running uploads included, by clients that do as they should: every file row's content is on disk; every content file belongs to rows or to exactly one unfinished upload, never both; used capacity is the sum of the sizes |
| FileServer.RunKeepsIff | NetDisk-Server/Server/code/tool/LongTaskTool.cpp:26-298 | what clients should do is exactly right: over a run whose deletes return, every state is good if and only if every request states the size that belongs to its hash, has a hash and can be created, no chunk is longer than its file, and no directory delete names a file whose row is missed |
| FileServer.StepKeepsIff | NetDisk-Server/Server/code/tool/LongTaskTool.cpp:26-298 | the same for one handler, from any good state |
| FileServer.FoldersOverRuns | NetDisk-Server/Server/code/tool/ShortTaskTool.cpp:231-282 | if directories are only made where there is one, over every run all directories stay in place, none is below itself and every delete request returns |
| FileServer.TreeOverRuns | NetDisk-Server/Server/code/sql/MyDB.cpp:54-100 | if rows are only put where there is a directory, the whole tree stays in order over every run |
| FileServer.StepOk | NetDisk-Server/Server/code/tool/LongTaskTool.cpp:26-298 | every handler keeps the good state when the client does as it should |
| FileServer.CloseKeepsRowContent | NetDisk-Server/Server/code/pool/UpDownCon.cpp:188-196 | closing any connection never removes content a row refers to |
| FileServer.RequestKeepsOwnershipIff | NetDisk-Server/Server/code/tool/LongTaskTool.cpp:156-181 | an accepted request for new content keeps the ownership exactly if the file is neither empty nor past the signed range: otherwise mapping or sizing fails after the file was created |
| FileServer.OverlongChunkIff | NetDisk-Server/Server/code/tool/LongTaskTool.cpp:219-232 | a chunk for a running upload keeps the ownership exactly if it is not longer than the file; a longer one is accepted, and the upload stays DOING while closing it no longer removes its content file |
| FileServer.EmptyHashIff | NetDisk-Server/Server/code/sql/MyDB.cpp:267-275 | a request for content taken to be known gets a row with its content on disk exactly if it has a hash: the empty hash is that of directories |
| FileServer.SizeOfHashIff | NetDisk-Server/Server/code/tool/LongTaskTool.cpp:133-137 | a request for known content keeps equal hashes at equal sizes exactly if it states the size the rows with this hash have |
| FileServer.GivenBackIff | NetDisk-Server/Server/code/sql/MyDB.cpp:128-152 | deleting a file keeps the used capacity the sum of the sizes exactly if the first row found with its hash has its size |
| FileServer.DeleteDirOfFileUsed | NetDisk-Server/Server/code/sql/MyDB.cpp:204-214 | deleting a directory with the id of a file: the used capacity stays right exactly if that file was empty, or lies below itself and so was deleted as a file |
| FileServer.DeleteDirOfFileOwned | NetDisk-Server/Server/code/sql/MyDB.cpp:204-214 | and its content stays owned exactly if another remaining row has the same hash, or in the same case |
| Capacity.EnoughSpaceIff | NetDisk-Server/Server/code/sql/MyDB.cpp:232-264 | what the unsigned comparison means on both sides of the capacity: exact below it, nearly everything allowed past it |
| Capacity.RunWithinIff | NetDisk-Server/Server/code/tool/LongTaskTool.cpp:123-132 | over every run of proper requests used and pending bytes stay within the capacity all the way exactly if every accepted file fits besides all pending uploads, at which the server does not look |
| Capacity.RunWithin | NetDisk-Server/Server/code/sql/MyDB.cpp:232-264 | if a user's uploads do not overlap that holds over every run, so the subtraction never wraps |
| Capacity.PassableIff | NetDisk-Server/Server/code/tool/LongTaskTool.cpp:219-298 | from any good state, chunks of the uploads accepted so far can bring the used capacity past the total exactly if used and pending bytes are more than it |
| Capacity.OverlapExample | NetDisk-Server/Server/code/tool/LongTaskTool.cpp:103-187 | a run with capacity 10: two overlapping uploads of 6 bytes are accepted, used capacity ends at 12, and then nearly 2^63 bytes are allowed |
| Capacity.PassedNeverRefuses | NetDisk-Server/Server/code/sql/MyDB.cpp:232-264 | once past the total, over every run without a deletion, no request for a file that can be created is refused for lack of capacity until the used capacity is 2^63 past it |
| FileServer.Server.CreateTask | NetDisk-Server/Server/code/tool/LongTaskTool.cpp:103-187 | decides a request: directory suffix, no capacity, known hash, no hash or occupied name, a size that cannot be created, in this order; creates the content file in the last two cases only |
| FileServer.Server.FirstCheck | NetDisk-Server/Server/code/tool/LongTaskTool.cpp:26-100 | an upload request: known content gets exactly one row at once, with the name, hash, size, parent and suffix of the request, and is done; new content is awaited on the connection under the same particulars with nothing handled; a refused one changes nothing |
| FileServer.Server.RecvFileData | NetDisk-Server/Server/code/tool/LongTaskTool.cpp:219-298 | an upload PDU as one atomic handler: refused if the claim does not fit, else counted; the one that completes the file adds exactly one row, with the name, hash, size, parent and suffix the connection holds; all other connections and rows stay |
| FileServer.Server.CloseCon | NetDisk-Server/Server/code/pool/UpDownCon.cpp:141-199 | closing removes the connection, and the content file exactly of an unfinished upload; no row changes |
| FileServer.Server.Handle | NetDisk-Server/Server/code/server/EventLoop.cpp:126-203 | any one event; of the others: a confirmation closes a finished connection only, a new directory is one row with its name and parent, a deleted file goes with its size, and with its content unless another row has the hash |
| FileServer.SuffixIs | NetDisk-Server/Server/code/tool/AbstractTool.cpp:4-14 | the suffix is what stands behind the last dot, "other" if that is nothing or there is no dot |
| FileServer.SuffixIsDir | NetDisk-Server/Server/code/tool/AbstractTool.cpp:4-14 | exactly the names ending in .d are taken for directories |
| Records.OutcomeIff | NetDisk-Server/Server/code/tool/LongTaskTool.cpp:116-181 | in a good state within capacity: which of the five answers a request gets, each as an if and only if over the name, the free space, the rows and the running uploads |
| Records.RowsAreRequested | NetDisk-Server/Server/code/tool/LongTaskTool.cpp:26-298 | over any run from an empty store, whatever clients do: every file row has the name, hash, size and parent of some earlier upload request and the suffix of that name, every directory row the name and parent of some request to make it |
| Records.ChunksRecord | NetDisk-Server/Server/code/tool/LongTaskTool.cpp:219-298 | chunks of any sizes that fill a running upload give it exactly one row, with what was asked for, and change nothing else in the store |
| Records.UploadRecords | NetDisk-Server/Server/code/tool/LongTaskTool.cpp:26-298 | from the accepted request to the last chunk: exactly one row, as asked for, its size used and its content file there |
| FileServer.Server.Serve | NetDisk-Server/Server/code/server/EventLoop.cpp:126-210 | any sequence of proper requests, uploads into deleted directories included, keeps the world good and is the run of the step function |
| MyDB.MyDB.DeleteOneDir | NetDisk-Server/Server/code/sql/MyDB.cpp:171-214 | on any table in which the directory is not below itself the recursion terminates and leaves exactly the store without the directory and all its descendants, in a good state; an id without a row loses what hangs from it; of a file the row is dropped |
| MyDB.DeletionReturnsIff | NetDisk-Server/Server/code/sql/MyDB.cpp:186-195 | the recursion, each nested call on the table the calls before it have left and the children listed in any order, returns exactly if the directory is not below itself |
| MyDB.OwnParentExample | NetDisk-Server/Server/code/sql/MyDB.cpp:66-81 | a directory inserted under an id that was just freed is its own parent, and deleting it never returns, whatever the order of listing |
| MyDB.NoLoops | NetDisk-Server/Server/code/sql/MyDB.cpp:54-114 | with all directories in place none is below itself |
| MyDB.MyDB.DeleteChildren | NetDisk-Server/Server/code/sql/MyDB.cpp:186-203 | the loop, recursing while the tables change, removes exactly the branches of the selected children |
| MyDB.MyDB.DeleteOneFile | NetDisk-Server/Server/code/sql/MyDB.cpp:117-168 | removes one file row, gives back its size, and removes the content file exactly if no other row has the hash |
| MyDB.SubtreeIsLeast | NetDisk-Server/Server/code/sql/MyDB.cpp:171-214 | what DeleteOneDir removes is the least set with the directory, its children, and the children of all directories in it |
| MyDB.WithoutKeepsStore | NetDisk-Server/Server/code/sql/MyDB.cpp:117-168 | removing any rows keeps content and used capacity in order |
| MyDB.WithoutKeepsTree | NetDisk-Server/Server/code/sql/MyDB.cpp:171-214 | removing rows together with all below them keeps tree and grades in order |
| MyDB.WithoutMeans | NetDisk-Server/Server/code/sql/MyDB.cpp:117-214 | what removing rows takes away: these rows, the sum of their sizes, and exactly the content files whose last row is among them |
| MyDB.InsertKeepsDirsIff | NetDisk-Server/Server/code/sql/MyDB.cpp:54-100 | insertion keeps all directories in place exactly if it inserts a file, or a directory in the root or an existing directory |
| MyDB.InsertKeepsTreeIff | NetDisk-Server/Server/code/sql/MyDB.cpp:54-100 | insertion keeps the tree (parent is the root or an existing directory of smaller id, grade one more) exactly if the given parent is the root or an existing directory |
| MyDB.GradeIsDepth | NetDisk-Server/Server/code/sql/MyDB.cpp:54-72 | the stored grade of a row in place is its depth, counted independently up to the root |
| MyDB.InsertUsed | NetDisk-Server/Server/code/sql/MyDB.cpp:102-113 | insertion keeps the used capacity the sum of the row sizes |
| MyDB.MyDB.InsertFileData | NetDisk-Server/Server/code/sql/MyDB.cpp:54-114 | exactly one row is added, under an id one above all others, with the given name, hash, size, parent and suffix; tree and capacity results for the call |
| MyDB.MyDB.GetIsEnoughSpace | NetDisk-Server/Server/code/sql/MyDB.cpp:232-264 | the unsigned comparison is exact while the used capacity is within the total |
| EventLoop.Transmit | NetDisk-Server/Server/code/server/EventLoop.cpp:69-124 | client and server together: the PDUs are serialized through a pool buffer, sent, and delivered in any pieces, calls and events; the tasks queued are the frames of the first PDUs, in order, each leading to the tool and content of its PDU, the others are still in the buffer, and none is left exactly if no byte is read after the last call that ended well, neither with a read of zero bytes nor with an error |
| EventLoop.SendAll | NetDisk-Client/ToolClass/Serializer.cpp:47-548 | the client serializes each PDU over whatever the pool buffer still holds and sends exactly the announced bytes |
| EventLoop.EndToEnd | NetDisk-Server/Server/code/server/EventLoop.cpp:69-124 | the only right cut of the concatenated frames of a list of PDUs is those frames with nothing left, and each is handled as its PDU |
| EventLoop.ServeConnection | NetDisk-Server/Server/code/server/EventLoop.cpp:69-124 | over all readable events of a connection until it is closed, tasks, leftover and assertion failure are what the cut of the stream call by call gives: a call that ends with a read of zero bytes or an error keeps its bytes but queues nothing |
| EventLoop.ServeIsCutIff | NetDisk-Server/Server/code/server/EventLoop.cpp:69-124 | however a stream is cut into calls: what is queued is the right cut of everything read exactly if what is left in the buffer completes no frame, or the assertion failed |
| EventLoop.ArrivesInOrder | NetDisk-Server/Server/code/server/EventLoop.cpp:69-124 | of a stream of whole frames the ones queued are the first, in order, and the rest stays in the buffer; all are queued exactly if no byte was read after the last call that ended well |
| EventLoop.LostFrameExample | NetDisk-Server/Server/code/server/EventLoop.cpp:347-349 | the same frame is queued when the close comes in a call of its own, and lost when it comes in the call that read the frame |
| EventLoop.HandleClientData | NetDisk-Server/Server/code/server/EventLoop.cpp:69-124 | the same for one event; it closes the connection exactly at a call that met a read of zero bytes, whatever that call read before, and ends at a failed one |
| EventLoop.ClosesIff | NetDisk-Server/Server/code/server/EventLoop.cpp:76-88 | an event closes the connection exactly if some call meets a read of zero bytes and all before it end well |
| EventLoop.Drain | NetDisk-Server/Server/code/server/EventLoop.cpp:91-110 | the inner loop computes the one right cut: it cuts all complete frames off the buffer and nothing else |
| EventLoop.SslReadAll | NetDisk-Server/Server/code/server/EventLoop.cpp:326-389 | one call adds exactly the bytes read, in order, making room first, also when it meets a read of zero bytes or an error; it returns their number, then 0 or -1 |
| EventLoop.ExtractionUnique | NetDisk-Server/Server/code/server/EventLoop.cpp:91-110 | a byte stream has only one right cut, so fragmentation cannot matter |
| EventLoop.ExtractionJoin | NetDisk-Server/Server/code/server/EventLoop.cpp:91-110 | cutting what has come, keeping the rest and cutting on is cutting the whole |
| EventLoop.HandleClientTask | NetDisk-Server/Server/code/server/EventLoop.cpp:126-210 | a pool thread's outcome for a queued frame: kind, deserializer and tool as characterised below, or that the deserializer overruns |
| EventLoop.ToolServesIff | NetDisk-Server/Server/code/server/EventLoop.cpp:205-312 | for each of the twelve tools: a frame is handed to it exactly if its kind and code are those the tool serves and it can be deserialized |
| EventLoop.NotHandledIff | NetDisk-Server/Server/code/server/EventLoop.cpp:126-203 | a frame is of unknown kind, or cannot be deserialized, exactly if its kind is none of the five, or its body is incomplete or at odds with its chunk size |
| Requests.UploadArrives | NetDisk-Client/DiskClient.cpp:449-457 | the client's upload request can be sent and reaches PutsTool with its user, name, hash, size and folder |
| Requests.ChunkArrives | NetDisk-Client/ToolClass/SR_Tool.cpp:256-304 | every chunk the client sends reaches PutsDataTool unchanged |
| Requests.UploadDoneArrives | NetDisk-Client/ToolClass/UdTool.cpp:246-257 | the confirmation reaches PutsFinishTool with size and hash |
| Requests.DownloadArrives | NetDisk-Client/DiskClient.cpp:352-366 | a download request reaches GetsTool with the file's id |
| Requests.StartArrives | NetDisk-Client/ToolClass/DownTool.cpp:291-298 | the signal to start reaches GetsDataTool |
| Requests.ControlArrives | NetDisk-Client/ToolClass/DownTool.cpp:65-117 | a pause, resume or cancel reaches GetsControlTool and means there what it was sent for |
| Requests.DownloadDoneArrives | NetDisk-Client/ToolClass/DownTool.cpp:241-258 | the verdict reaches GetsFinishTool |
| Requests.SignInArrives | NetDisk-Client/WidgetClass/Login.cpp:112-127 | a login reaches LoginTool with user and password |
| Requests.SignUpArrives | NetDisk-Client/WidgetClass/Login.cpp:130-143 | a registration reaches SignTool with user and password |
| Requests.FileListArrives | NetDisk-Client/ToolClass/ShortTaskManager.cpp:28-34 | a request for the listing reaches CdTool |
| Requests.MakeDirArrives | NetDisk-Client/ToolClass/ShortTaskManager.cpp:44-63 | a new directory reaches CreateDirTool with its name, and the parent id the server reads is the one the client gave, on any host |
| Requests.DeleteArrives | NetDisk-Client/ToolClass/ShortTaskManager.cpp:69-85 | a deletion reaches DeleteTool, and the id the server reads out of the password field is the one the client gave |
| EventLoop.StaysWithinIff | NetDisk-Server/Server/code/tool/Serializer.cpp:89-124 | a queued frame is handled without writing past the message field or reading past the buffer, whatever the pool left behind it, exactly if it is no short or control PDU or its announced message length is within the limit even when missing bytes of it are the largest possible |
| EventLoop.OverrunExample | NetDisk-Server/Server/code/tool/Serializer.cpp:113-120 | a short PDU that announces 201 bytes of message is copied past its field of 200 |
| EventLoop.FrameIsHandled | NetDisk-Server/Server/code/server/EventLoop.cpp:126-312 | the frame of any sendable PDU, with any bytes behind it in the pool buffer, is handled as that PDU by the tool that serves its kind and code |
| EventLoop.DataFrameReserializes | NetDisk-Server/Server/code/tool/Serializer.cpp:297-395 | an accepted data frame serializes to the same bytes again |
| Wire.RoundTrip | NetDisk-Server/Server/code/tool/Serializer.cpp:46-547 | deserialize after serialize, for every kind with a valid header: any buffer that holds the fields of a PDU at their offsets parses to what the receiver should get, including the four slack bytes of a short PDU, which may be anything |
| Wire.ReceivedUnchanged | NetDisk-Server/Server/code/tool/Serializer.cpp:46-547 | the receiver gets the very same PDU exactly if nothing stands behind its announced payload |
| Wire.AcceptedDataFrame | NetDisk-Server/Server/code/tool/Serializer.cpp:348-395 | the converse for data frames: what is accepted is the frame of the PDU it parses to, and that PDU passes serialize's checks |
| Wire.DataFrameBytes | NetDisk-Server/Server/code/tool/Serializer.cpp:297-345 | a data frame's bytes are determined by its PDU |
| Wire.OverrunIff | NetDisk-Server/Server/code/tool/Serializer.cpp:89-547 | of what passes the other checks exactly the short, response and control PDUs whose announced message length exceeds the field or the buffer overrun; the other kinds never do |
| Wire.CheckIff | NetDisk-Client/ToolClass/Serializer.cpp:47-548 | serialize accepts a PDU exactly if it fits the buffer, its kind is its own and the body length is what its fields take; which of the three errors it gives otherwise |
| Serializer.Serialize | NetDisk-Client/ToolClass/Serializer.cpp:47-548 | the moving-pointer writes put every field at its offset in network order or, with the right status, leave the buffer alone |
| Serializer.SerializeShort | NetDisk-Client/ToolClass/Serializer.cpp:47-87 | the same for short PDUs, with the slack left unwritten |
| Serializer.SerializeTranData | NetDisk-Server/Server/code/tool/Serializer.cpp:297-345 | the same for data PDUs; the chunk only if the data holds it |
| Serializer.DeserializeShort | NetDisk-Server/Server/code/tool/Serializer.cpp:89-124 | reading back through the moving pointer computes Parse: kind and completeness are checked, the message length is not; Parse marks where the copy goes past the field |
| Serializer.DeserializeRespond | NetDisk-Client/ToolClass/Serializer.cpp:173-209 | the same for responses; Parse marks where the message is read past the buffer |
| Serializer.DeserializeTran | NetDisk-Server/Server/code/tool/Serializer.cpp:257-294 | the same for transfer requests |
| Serializer.DeserializeTranData | NetDisk-Server/Server/code/tool/Serializer.cpp:348-395 | the same for data PDUs, body length against chunk size |
| Serializer.DeserializeTranFinish | NetDisk-Server/Server/code/tool/Serializer.cpp:437-467 | the same for finish PDUs |
| Serializer.DeserializeTranControl | NetDisk-Server/Server/code/tool/Serializer.cpp:513-547 | the same for control PDUs; Parse marks where the message is read past the buffer |
| Serializer.WriteData | NetDisk-Server/Server/code/tool/Serializer.h:55-58 | copies the bytes and disturbs nothing written before |
| Bytes.HtonllIsNetworkOrder | NetDisk-Server/Server/code/tool/Serializer.h:61-69 | on little- and big-endian hosts the bytes of htonll(x) are x in network order |
| Bytes.HtonllInvolution | NetDisk-Server/Server/code/tool/Serializer.h:61-73 | htonll is its own inverse, so ntohll may be the same routine |
| Bytes.NtohllReadsValue | NetDisk-Server/Server/code/tool/Serializer.h:71-73 | ntohll of eight received bytes is the number they denote |
| Bytes.HtonIsNetworkOrder | NetDisk-Server/Server/code/tool/Serializer.cpp:4-24 | the same for htons and htonl of any width |
| ReceiveBuffer.Buffer.MakeSpace | NetDisk-Server/Server/code/buffer/Buffer.cpp:155-167 | growing, or moving the contents down over themselves, leaves them unchanged and makes len bytes writable |
| ReceiveBuffer.Buffer.EnsureWriteAble | NetDisk-Server/Server/code/buffer/Buffer.cpp:32-37 | len bytes are writable afterwards, contents unchanged |
| ReceiveBuffer.Buffer.Append | NetDisk-Server/Server/code/buffer/Buffer.cpp:88-93 | adds exactly the bytes at the end |
| ReceiveBuffer.Buffer.ReadFd | NetDisk-Server/Server/code/buffer/Buffer.cpp:105-129 | adds exactly what the descriptor delivered, also when it spilled into the second area |
| ReceiveBuffer.Buffer.HasWritten | NetDisk-Server/Server/code/buffer/Buffer.cpp:39-41 | turns stored bytes into contents |
| ReceiveBuffer.Buffer.Retrieve | NetDisk-Server/Server/code/buffer/Buffer.cpp:43-46 | drops exactly a prefix |
| ReceiveBuffer.Buffer.PeekToStr | NetDisk-Server/Server/code/buffer/Buffer.cpp:73-78 | a copy of the first len bytes, or of all |
| IndexedHeap.Heap.SiftDown | NetDisk-Server/LoadBalancing/code/serverheap/ServerHeap.cpp:111-131 | ties are exchanged; if the node moved the heap order is complete, so no upward sift is needed; if not, nothing changed and only the edge to its parent is open |
| IndexedHeap.Heap.SiftUp | NetDisk-Server/LoadBalancing/code/serverheap/ServerHeap.cpp:97-108 | completes the order, keeps all nodes and the index |
| IndexedHeap.Heap.Settle | NetDisk-Server/LoadBalancing/code/serverheap/ServerHeap.cpp:12-21 | down, and up only if it did not move, is always enough |
| IndexedHeap.Heap.SwapNode | NetDisk-Server/LoadBalancing/code/serverheap/ServerHeap.cpp:134-141 | the index stays an exact one-to-one correspondence of ids and slots |
| ServerHeap.ServerHeap.Adjust | NetDisk-Server/LoadBalancing/code/serverheap/ServerHeap.cpp:12-21 | sets one count, up or down; order and index hold, all else unchanged |
| ServerHeap.ServerHeap.Add | NetDisk-Server/LoadBalancing/code/serverheap/ServerHeap.cpp:24-46 | adds a server or replaces one; order and index hold, all else unchanged |
| ServerHeap.ServerHeap.Pop | NetDisk-Server/LoadBalancing/code/serverheap/ServerHeap.cpp:58-65 | removes exactly the named socket |
| ServerHeap.ServerHeap.Del | NetDisk-Server/LoadBalancing/code/serverheap/ServerHeap.cpp:79-94 | removes the node in the slot, the last one included, and no other |
| ServerHeap.ServerHeap.GetMinServerInfo | NetDisk-Server/LoadBalancing/code/serverheap/ServerHeap.cpp:49-55 | a registered server with the least count, or none exactly if there is none |
| Timer.Timer.Add | NetDisk-Server/Server/code/timer/Timer.cpp:27-51 | starts or restarts a timer; order and index hold |
| Timer.Timer.Adjust | NetDisk-Server/Server/code/timer/Timer.cpp:13-24 | the downward-only path keeps the order exactly if the new expiry is not before the parent's, in particular if it is not before the old one |
| Timer.Timer.Tick | NetDisk-Server/Server/code/timer/Timer.cpp:76-88 | fires timers once each, in order of expiry, before all that stay, each with under a millisecond left when its turn came; the callbacks called are theirs |
| Timer.FiredAtOneReading | NetDisk-Server/Server/code/timer/Timer.cpp:76-88 | at one clock reading exactly the timers with under a millisecond left fire |
| Timer.Timer.Pop | NetDisk-Server/Server/code/timer/Timer.cpp:91-99 | removes the top timer |
| Timer.Timer.GetNextTick | NetDisk-Server/Server/code/timer/Timer.cpp:102-112 | fires exactly what Tick fires, then answers -1 without timers, else the whole milliseconds r to the first expiry: it lies between r and r + 1 milliseconds away, as long as that fits 32 bits |
| Timer.TickMeans | NetDisk-Server/Server/code/timer/Timer.cpp:109-111 | the answer counts the whole milliseconds between the reading and the first expiry, towards zero, on both sides |
| Timer.NegativeTickIff | NetDisk-Server/Server/code/timer/Timer.cpp:109-111 | the answer is negative exactly if there is no timer or one is overdue by a millisecond or more, and -1 exactly also if the longest overdue is so by less than two: against the comment, and ambiguous |
| Timer.NegativeTickExample | NetDisk-Server/Server/code/timer/Timer.cpp:109-111 | a timer that gets -1 and -3 where the comment promises 0 |
| Timer.Timer.Doing | NetDisk-Server/Server/code/timer/Timer.cpp:54-65 | runs the named callback, then deletes what the deletion deletes |
| Timer.Timer.Del | NetDisk-Server/Server/code/timer/Timer.cpp:115-130 | order and index hold; the id removed is the victim characterised below |
| Timer.VictimIsAsked | NetDisk-Server/Server/code/timer/Timer.cpp:121-128 | the id removed is the one asked for exactly if it is not in the last slot, or is alone, or its parent expires at another time |
| Timer.VictimExample | NetDisk-Server/Server/code/timer/Timer.cpp:121-128 | two timers of equal expiry: deleting the second removes the first |
| Equalizer.Equalizer.Start | NetDisk-Server/LoadBalancing/code/equalizer/Equalizer.cpp:21-47 | over any events the watched sockets are the heap's keys, the heap is the plain socket table, and every client gets a server with the least count; from an empty balancer, by what was announced and reported |
| Equalizer.Equalizer.RecvServerInfo | NetDisk-Server/LoadBalancing/code/equalizer/Equalizer.cpp:132-197 | registers the server, or nothing if any part failed |
| Equalizer.Equalizer.RecvServerState | NetDisk-Server/LoadBalancing/code/equalizer/Equalizer.cpp:200-222 | a report sets the count, a farewell removes the server; the asserted membership always holds |
| Equalizer.Equalizer.DelServer | NetDisk-Server/LoadBalancing/code/equalizer/Equalizer.cpp:239-247 | removes the server from heap and watched sockets alike |
| Equalizer.Equalizer.SendServerInfoToClient | NetDisk-Server/LoadBalancing/code/equalizer/Equalizer.cpp:250-280 | sends the information of a least loaded server; nothing only if there is none |
| Equalizer.TableHoldsLastReports | NetDisk-Server/LoadBalancing/code/equalizer/Equalizer.cpp:200-230 | the count by which servers are chosen is the last one reported, found by going back through the events |
| Equalizer.RepliesAreByHistory | NetDisk-Server/LoadBalancing/code/equalizer/Equalizer.cpp:250-280 | each client in turn gets the name, address and ports announced last on the socket of a server that is still there and whose last reported count is least, or nothing exactly if no server is there: by the events alone |
| Equalizer.TableHoldsRegistrations | NetDisk-Server/LoadBalancing/code/equalizer/Equalizer.cpp:132-197 | what is kept of a server is what it announced last, the ports modulo 2^16 |
| FileSystem.FileSystem.InitView | NetDisk-Client/WidgetClass/FileSystem.cpp:17-63 | a listing in any order, files of missing folders included: every item has the kind, grade and folder of its entry, every stored size is the sum over the files below, and for a listing of a server's table every folder's size is the sum of the file sizes in that table below it, by the server's own relation |
| FileSystem.UnderIsBelow | NetDisk-Client/WidgetClass/FileSystem.cpp:344-370 | what the view takes to lie below a folder is what the server's delete takes to lie below it |
| FileSystem.RightSizesAreStored | NetDisk-Client/WidgetClass/FileSystem.cpp:17-63 | right sizes of the items shown are the sums over the server's table |
| FileSystem.FileSystem.InitDirByteSize | NetDisk-Client/WidgetClass/FileSystem.cpp:344-370 | the recursion puts right the sizes of the item and of everything below it, changes no other, and returns the total |
| FileSystem.FileSystem.AddNewFileItem | NetDisk-Client/WidgetClass/FileSystem.cpp:103-145 | every folder above the file gets its size on top and nothing else changes; in an unknown folder no size changes; all sizes are right afterwards exactly if the type cut from the name is not that of a folder, or the size is that of the files hanging from its id |
| FileSystem.TakenForFolderIff | NetDisk-Server/Server/code/tool/AbstractTool.cpp:4-14 | of the files a server stores, the client takes for a folder exactly the one named d |
| FileSystem.NamedFolderIff | NetDisk-Client/WidgetClass/FileSystem.cpp:103-145 | after adding such a file all sizes are right exactly if its size is the sum of the files hanging from its id |
| FileSystem.NamedFolderExample | NetDisk-Client/WidgetClass/FileSystem.cpp:344-370 | a non-empty file named d alone in the view: recomputing would give it 0 |
| FileSystem.DeleteRequestIs | NetDisk-Client/WidgetClass/FileSystem.cpp:502-520 | the view asks for a directory to be deleted exactly for items named d or ending in .d, else for a file |
| FileSystem.NamedFolderDeletion | NetDisk-Client/WidgetClass/FileSystem.cpp:502-520 | deleting such a file from the view asks for a directory to be deleted: when the server's used capacity and ownership survive that |
| FileSystem.FileSystem.AddUpwards | NetDisk-Client/WidgetClass/FileSystem.cpp:136-144 | the walk upwards terminates and adds the size to exactly the folders above |
| FileSystem.FileSystem.AddNewDirItem | NetDisk-Client/WidgetClass/FileSystem.cpp:148-185 | a new folder changes no stored size; the index is right afterwards exactly if its place is known and the files that hang from its id are empty |
| FileSystem.RecomputationAgrees | NetDisk-Client/WidgetClass/FileSystem.cpp:344-370 | where all sizes are right, the recursion would compute the stored ones again |
| FileSystem.NewFileTotal | NetDisk-Client/WidgetClass/FileSystem.cpp:136-144 | a new file adds its size to the totals of exactly the folders above it |
| FileSystem.ServerListing | NetDisk-Server/Server/code/sql/MyDB.cpp:278-302 | a user's table with its directories in place, listed in any order, is a listing the view is right for |
| Download.PrefixReceived | NetDisk-Client/ToolClass/DownTool.cpp:219-241 | under any schedule of pauses, resumes, cancellations and arrivals the missing-data branch is never taken, and the received part of the open file is the source's |
| Download.ChannelCarries | NetDisk-Server/Server/code/tool/LongTaskTool.cpp:513-540 | what is on its way at any moment are the next chunks in order, each with the download code, number, count, place, length and bytes |
| Download.AllReceived | NetDisk-Client/ToolClass/DownTool.cpp:219-271 | when all chunks have arrived the client reports success and keeps a file equal to the source exactly if the file it opened was no longer than the source; otherwise the old end remains and the file is removed |
| Download.EndStatus | NetDisk-Server/Server/code/tool/LongTaskTool.cpp:550-557 | if it came to send at all, the sender ends with FIN exactly if all chunks were sent, else with CLOSE, and then only after a CANCEL |
| Download.EndStatusChangesIff | NetDisk-Server/Server/code/tool/LongTaskTool.cpp:630-653 | that status changes later exactly if a control that passed its check before is still to set another one |
| Download.FinLostIff | NetDisk-Server/Server/code/tool/LongTaskTool.cpp:630-653 | some run sends everything and ends with another status than FIN exactly if the client sends any control at all |
| Download.StaleControl | NetDisk-Server/Server/code/tool/LongTaskTool.cpp:630-653 | for every control of every download such a run is constructed, and the status it ends with is that control's |
| Download.CutShortIff | NetDisk-Server/Server/code/tool/LongTaskTool.cpp:513-548 | a sender that has started can end before all chunks are sent exactly if the client sends a CANCEL |
| Download.NotStartedIff | NetDisk-Server/Server/code/tool/LongTaskTool.cpp:464-467 | a download can fail to start exactly if the client sends a PAUSE or a CANCEL, and can then stand at DOING exactly if it also sends a RESUME |
| Download.NeverStarts | NetDisk-Server/Server/code/tool/LongTaskTool.cpp:464-467 | then nothing is ever sent, whatever follows |
| Download.NeverStartedExample | NetDisk-Server/Server/code/tool/LongTaskTool.cpp:464-467 | a PAUSE and a RESUME, both handled, the status DOING, and a download that is dead |
| Download.StuckIff | NetDisk-Server/Server/code/pool/UpDownCon.cpp:209-233 | a download that has started can be left asleep though not paused, and for good, exactly if its client sends a PAUSE and also a RESUME or a CANCEL: the status is set outside the mutex |
| Download.StuckOnlyIfLost | NetDisk-Server/Server/code/pool/UpDownCon.cpp:209-233 | each time it is because a notification came between test and sleep |
| Download.SleepsOn | NetDisk-Server/Server/code/pool/UpDownCon.cpp:209-216 | short of a spurious wakeup nothing ever happens to such a sender |
| Download.GetsReplyRead | NetDisk-Server/Server/code/tool/LongTaskTool.cpp:368-374 | the reply that starts a download announces eight bytes more than its message has; the client still reads size and hash right, whatever lies behind, as long as it starts with a zero |
| Download.WakeupLost | NetDisk-Server/Server/code/pool/UpDownCon.cpp:209-233 | with a PAUSE and any other control there is a run that handles every control and leaves the sender asleep for good |
| Download.SendsAll | NetDisk-Server/Server/code/tool/LongTaskTool.cpp:513-558 | left alone with the status DOING the sender sends everything and ends with FIN |
| Download.RunInv | NetDisk-Server/Server/code/tool/LongTaskTool.cpp:487-558 | the invariant of sender, channel, client file and waiting holds over every run |
| Download.GetsTask.SendFileData | NetDisk-Server/Server/code/tool/LongTaskTool.cpp:464-558 | the next atomic action of the sending thread is the step of the model |
| Download.GetsTask.Control | NetDisk-Server/Server/code/tool/LongTaskTool.cpp:630-653 | the same for a thread handling a control: first comparison, second comparison, setting, notifying |
| Download.DownTool.HandleRecvTranDataPdu | NetDisk-Client/ToolClass/DownTool.cpp:219-271 | an arriving PDU, in fields: a wrong code removes the file, a closed file is left alone, a gap removes it, else exactly the bytes at the offset are written and counted, and the last one closes the file with a verdict and keeps it exactly if it is the source |
| Download.DownTool.SendCancelRequest | NetDisk-Client/ToolClass/DownTool.cpp:98-118 | cancelling removes and closes the file exactly if it is unfinished; a finished one is not touched |
| Download.CancelLasts | NetDisk-Client/ToolClass/DownTool.cpp:98-118 | over every run: once cancelled before the last byte, in every later state the file is gone, nothing more is received and no verdict is given |
| Download.CancelTooLate | NetDisk-Client/ToolClass/DownTool.cpp:98-118 | a cancellation after the last byte changes nothing |
| Download.CancelledIff | NetDisk-Client/ToolClass/DownTool.cpp:98-118 | a download counts as cancelled exactly if some cancellation came before the last byte |
| Chunks.Tiling | NetDisk-Client/ToolClass/UdTool.cpp:62-71 | the chunks tile the file: each byte lies in exactly one, the one numbered by its offset |
| Chunks.LengthsAddUp | NetDisk-Client/ToolClass/UdTool.cpp:62-71 | the chunk lengths add up to the file size |
| Chunks.TotalChunksExact | NetDisk-Client/ToolClass/UdTool.cpp:66 | the count in a 32-bit variable is right exactly up to 2^32 - 1 chunks |
| Chunks.LastChunkSizeExact | NetDisk-Client/ToolClass/UdTool.cpp:67 | and then so is the last length, between 1 and 2048 |
| Chunks.LoopTerminates | NetDisk-Server/Server/code/tool/LongTaskTool.cpp:498-511 | the send loop with a 32-bit counter ends, after exactly the right number of steps, if and only if the count fits 32 bits |
| Chunks.ChunkPduIsSendable | NetDisk-Client/ToolClass/SR_Tool.cpp:261-270 | every chunk's PDU passes the serializer's checks, fits the pool buffer and arrives unchanged |
| Chunks.ChunkPduCarries | NetDisk-Client/ToolClass/SR_Tool.cpp:261-270 | the PDU of a chunk in fields: code, number, count of chunks, offset, the 2048 bytes there or the last ones, and the lengths announced |
| Chunks.AsyncSendFileData | NetDisk-Client/ToolClass/SR_Tool.cpp:256-313 | the client's loop sends the chunks from the first on, each once and with all its fields right, up to the first at which it reads a stop |
| Chunks.UploadContext.constructor | NetDisk-Client/ToolClass/UdTool.cpp:62-71 | a chosen file: all chunks unacknowledged, bytes conserved |
| Chunks.UploadContext.HandlePutsDataRespond | NetDisk-Client/ToolClass/UdTool.cpp:219-227 | the chunk is no longer waited for and its length is counted as sent; sent and unacknowledged bytes stay the total exactly if it was not acknowledged before |
| Chunks.UploadContext.SettleAll | NetDisk-Client/ToolClass/UdTool.cpp:219-227 | acknowledgements for all chunks, once each in any order, keep the bytes conserved and end with everything sent |
| Chunks.UploadContext.DoneIffAllAcked | NetDisk-Client/ToolClass/UdTool.cpp:219-227 | all bytes count as sent exactly if no chunk is unacknowledged |
| Chunks.UploadContext.HandlePutQuick | NetDisk-Client/ToolClass/UdTool.cpp:198-203 | a file the server has already counts as sent |
| TaskQue.CloseWaitsForAllIff | NetDisk-Client/ToolClass/TaskQue.cpp:17-33 | when the first close returns, exactly the tasks added before it have run, each once, if and only if there is a worker or none was added |
| TaskQue.AcceptedIsSubmitted | NetDisk-Client/ToolClass/TaskQue.cpp:17-53 | whatever the threads do, exactly the tasks added before the first call of close are accepted, in order, and the queue is closed exactly if there is such a call |
| TaskQue.NoLostWakeup | NetDisk-Client/ToolClass/TaskQue.cpp:35-53 | in every reachable state with a sleeping worker each queued task has a worker about to look or a notification to come; once closing has notified nobody sleeps |
| TaskQue.NoDeadlock | NetDisk-Client/ToolClass/TaskQue.cpp:17-53 | over runs: where no internal step is possible every task added before the first close has run exactly once, if there is a worker, and a close that was called has returned |
| TaskQue.InternalStepsEnd | NetDisk-Client/ToolClass/TaskQue.cpp:35-53 | internal steps use up what is left to do, so there are finitely many |
| TaskQue.ComesToRest | NetDisk-Client/ToolClass/TaskQue.cpp:35-53 | from every reachable state internal steps alone lead to such a state |
| TaskQue.StartedInOrder | NetDisk-Client/ToolClass/TaskQue.cpp:46-47 | at any moment of any run the started tasks followed by the queued ones are exactly the tasks added before the first close, in order; none finishes more often than it starts |
| TaskQue.RunInv | NetDisk-Client/ToolClass/TaskQue.cpp:17-53 | the invariant of order, tasks in hand, wakeups and closing holds over every run |
| TaskQue.TaskQue.AddTask | NetDisk-Client/ToolClass/TaskQue.h:37-46 | puts the task last in the queue, with a notification to come, or, exactly if the queue is closed, refuses it and changes nothing |
| TaskQue.TaskQue.Doing | NetDisk-Client/ToolClass/TaskQue.cpp:35-53 | one hold of the mutex by a worker: take a task, wait or leave; then the task itself |
| TaskQue.TaskQue.Close | NetDisk-Client/ToolClass/TaskQue.cpp:17-24 | only the first call closes |
| TaskQue.TaskQue.WakeAll | NetDisk-Client/ToolClass/TaskQue.cpp:26 | wakes all sleeping workers |

## Left out

- Sockets, epoll, SSL, mmap, Boost.Asio coroutines, Qt models and widgets: a read is "some bytes arrive", a send appends to a channel, the mapped file is an array.
- MySQL and OpenSSL: tables are maps, database and disk calls succeed, and equal hashes mean equal contents; a content hash is known only through the size it determines, and the download's hash comparison compares contents.
- Resumed transfers (PUTSCONTINUE, a non-zero sended_size): the code itself marks upload resume as wrong, and the download's completion test only fits offset 0.
- Error branches of reads and writes whose negative results are held in an unsigned type, and failed inserts.
- The copy of framing and dispatch in Server.cpp, and the balancer's own Serializer.
- Serialization of UserInfo, FileInfo, ServerInfoPack, ServerState and RespondPack: more field lists of the same shape.
- Pool buffers are frames followed by arbitrary bytes; the pool, the work queue, logging, connection pools, configuration, login and registration would add only easy members.
- The two answers of firstCheck are not steps of the upload machine; their effect, every chunk delivered twice, is a case of its arbitrary deliveries (UploadTwice).
- The check that a data PDU holds as many bytes as it announces is not in the upload's threads: AcceptedDataFrame shows that a PDU from the wire does.
- UpDownCon::close while a thread is still copying, which unmaps the file under it, is not in the upload and download machines; in FileServer handlers are atomic.
- Verification of the user during a transfer (setVerify) and the GETS_FINISH exchange after the client's verdict.
- The lock of Timer, which getNextTick takes twice; its calls are modelled one at a time.
- Callback effects: a timer's callback is a name, and Tick and Doing report which were called.
- Both heaps share one modelled sift (IndexedHeap), where the source has two copies of the same code.
- 64-bit wrap-around of row ids and of sums of sizes; the used capacity is compared in unsigned 64-bit arithmetic as in the source.
- TaskQue: close called from inside a task (it would join itself), the destructor's second close while the first is still joining, and tasks that throw.
- FileSystem.InitView: asks for a listing whose entries have different ids and whose folders' folders are listed, which ServerListing shows of a table with its directories in place; repeated ids and folders without a folder are not modelled, nor are the current folder, icons and tool tips.
- FileSystem.AddNewFileItem: asks for a new id; an item is its id, so an id that the view already shows, and the aliasing of items through pointers, are not captured.
- FileSystem.AddNewDirItem: asks for a new id, for the same reason.
- FileServer.OwnershipOverRuns: holds for clients that keep to Sensible and deletes that return. RunKeepsIff shows that nothing less will do; what each exception does is said by SizeOfHashIff and GivenBackIff (a size that does not belong to the hash), EmptyHashIff (no hash), RequestKeepsOwnershipIff (a file that cannot be created), OverlongChunkIff (a chunk longer than its file), DeleteDirOfFileUsed and DeleteDirOfFileOwned (a directory delete that names a file), and DeletionReturnsIff (a delete that never returns); FoldersOverRuns says when deletes always return.
- A hash is a file name of its own: one with path separators, or dots only, is not modelled.
- Serializer.Serialize: a message shorter than announced is not read past its end; the one call of the source that does so is modelled by a message with the memory behind it (GetsReplyRead).
- EventLoop.SslReadAll: a call is the pieces it read, at most the 4096 bytes it asks for, and how it ended; more than one reading thread per connection is not modelled.
- What an overrun does to the memory behind the field or the buffer.
- Chunks.AsyncSendFileData: the file stays open and readable, and the control variable is an oracle read where the loop reads it.
