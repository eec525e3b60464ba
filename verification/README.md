# Verified models of an RTOS: TCP, FAT32, scheduler, IPC, accounts, hashing, input

This project models the parts of the operating system whose correctness is hardest
to see from reading the code, and proves what they are for. To verify it, run
`dafny verify dfyconfig.toml` with Dafny 4.11; nothing here executes the system.

Each component has a value model (datatypes and functions, one step of the source
per function), theorems about every run of that model, and classes with the source's
own fields, arrays and loops whose methods are proved to compute exactly those
functions.

## Components

**TCP data path (`net/tcp.c`).** `TcpModel` is one control block and every operation
on it. `TcpSend` and `TcpReceive` prove what each operation keeps, `TcpLink` joins two
endpoints by a network that may lose, repeat and reorder every segment ever emitted,
`TcpEcho` is the echo server with its backpressure, and `TcpBlock` is the control block
as an object with four fixed arrays shifted in place. `TcpFlow`, `TcpProgress` and
`TcpArrive` say what gets done, in terms of the segments: the window a peer grants is
obeyed, what may be sent is, what is lost is sent again, and what arrives in order is
handed over. Sequence numbers are 32-bit
words throughout (`Words`); a run is assumed shorter than 2^31 bytes per direction and
to be one incarnation of the connection. Options, SACK edges, windows, ACK numbers,
timers and the calls the application makes from its receive handler are arbitrary.

**FAT32 (`fs/fat32.c`).** Four groups of modules:

- The table: `FatChain` has walks, Floyd's cycle detection, allocation and freeing on an
  arbitrary table, `FatOwner` and `FatFiles` what each operation does to chains and count.
- Directories: `FatLfn`, `FatDir`, `FatPlace`, `FatEntry`, `FatDelete`, `FatTree` and
  `FatDirectory` have long names, the scan, where entries go, storing and deleting.
  `FatSpelling` is how names are compared, byte by byte, and `FatFormat` where every byte
  of boot sector, table, entries and contents stands.
- Who owns which cluster: in `FatLive` a cluster chain is live if it is the root's or an
  entry of a live directory names it, read from the directory slots on the disk.
  `FatOps` has write, delete, mkdir and rmdir on those slots, from the path walk on, and
  proves that every run of them leaves exactly the live chains in use; `FatNaming` is the
  tree of names behind it, `FatRuns` shows that long-name runs stay inside their clusters,
  `FatRmdir` and `FatVanish` exactly when clusters are lost, and `FatOnDisk` ties the
  slots and the walk to the blocks, `FatInPlace` an overwrite of those blocks to its step.
  `FatEffect` says what each operation does to entries and table, and that nothing else
  changes, `FatFound` what paths find afterwards.
- Crashes: `FatDisk` and `FatContents` are the bytes (geometry, FAT copies, file
  contents), `FatCrash` and `FatPath` the crash atomicity of an overwrite, first for the
  directory entry and then by path, `FatRecovery` any number of overwrites cut off one
  after the other. `FatVolume` is the mounted volume with its sector cache, whose
  history records the disk after every block write.

Block I/O succeeds, crashes are prefixes of the writes, and the FSInfo sector lies in
the reserved area, as `FatDisk.MountIsSound` shows it must.

**IPC (`kernel/ipc.c`).** `Ipc` splits semaphore and mutex calls into the sections between
taking and giving up the lock; `IpcInv` and `IpcRun` prove the protocol over all
interleavings with timeouts and kills; `IpcTime` says when a wait may give up, over every
run; `IpcObjects` has the sections in place.

**Scheduler (`kernel/sched.c`).** `Sched` interleaves the steps of all cores: task code,
waking, reaping, choosing and switching, exiting and waiting. `SchedInv` is safety,
`SchedMoves` what each step may do to a task, `SchedFair` bounded waiting under round robin over every run, `SchedExit` the delivery of
exit codes, `SchedSecondWait` a run in which a second wait sleeps, `SchedTables` the scan
loops over the tables. `pick_next` is one step; the numbers of
cores, task slots and records are parameters. Locks are atomic steps, the reschedule
interrupt is the freedom to schedule at any time.

**Accounts (`kernel/user.c`).** `UserCodec` prints and parses the account file, `UserCommit`
is the two-file protocol over any saves, crashes, failed writes and recoveries from a
state with a valid copy, `UserDb` is the buffer that is filled and cut in place. A crash
or an error inside a file write leaves the old bytes, a strict prefix of the new ones, or
all of them.

**Hashing (`lib/sha256.c`).** `Sha` states FIPS 180-4, RFC 2104 and RFC 8018; `ShaContext`
is the streaming context and proves it equal to them.

**Event ring (`kernel/gui_input.c`)** and **line editor (`user/shell.c`).** `EventRing`
interleaves producer and consumer load by load and store by store, with sequentially
consistent memory and stores that can be seen half done. `LineEditor` edits the buffer
and sends bytes; what they make of a non-wrapping terminal line, on which a backspace
goes left and no other unprintable byte draws anything, is a function of those bytes
that the editor never reads. Its input are the keyboard's bytes, escape sequences
included, in any number of lines. `Words` and `Basics` hold 32-bit words and small helpers.

## Findings

Some natural statements are false of the code. Each has its exact condition here, as an
if-and-only-if, and the input that fails where one is not obvious:

- rmdir takes a directory for empty by the first three bytes of each name. What passes
  holds nothing but `.` and `..` exactly if no other name hides behind those bytes
  (`FatTree.EmptyMeansDotsOnly`); the short name with the bytes of `.` and `XYZ` does, and
  is found as `..XYZ` (`FatTree.HiddenEntry`). Removing such a directory keeps every used
  cluster owned exactly if nothing hidden in it names a chain (`FatRmdir.RmdirExactlyIf`).
  The driver never stores such a name itself, under whatever name it is asked to
  (`FatOps.NoDotStored`); a volume prepared elsewhere may hold one.
- A short name that begins with the byte E5, the mark of a deleted slot, is stored as it is:
  the write or mkdir reports success and no entry names the new chain. Each operation
  leaves every used cluster owned exactly if it does not store a new file with contents, or
  a new directory, under such a name (`FatVanish.StepExactlyIf`, over runs
  `FatVanish.RunExactlyIf`); a caller can check the name beforehand (`FatEntry.Visible`).
  The file E5 41 on a new volume is the input (`FatVanish.FileLost`).
- Deleting keeps a directory well-formed exactly if the entry's long-name run begins in the
  entry's own cluster; otherwise the head of the run stays behind, and reports nothing
  (`FatDelete.DeleteRemoves`). The runs the driver stores do (`FatRuns.PutNear`).
- The 32-bit cluster count of a write rounds up with wrap-around: it covers the contents
  exactly if the length plus a cluster minus one stays below 2^32 (`FatContents.EnoughClusters`).
- A long name reads back as written exactly if it is 7-bit (`FatLfn.NarrowedSame`).
- The FSInfo sector stays clear of the FATs exactly if it lies in the reserved area; mount
  does not ask (`FatDisk.MountIsSound`).
- The 32-bit block count of PBKDF2 wraps: the output is complete exactly up to 2^32 - 32
  bytes (`Sha.BlocksCover`); a longer request is answered with nothing.
- The echo of what is handed over is complete exactly if it fits the free send buffer
  (`TcpEcho.EchoWholeExactlyIf`). A peer that stays below the advertised edge never makes
  it fail (`TcpEcho.EchoIsLossless`), one byte beyond the edge may (`TcpEcho.BeyondEdgeIsLost`),
  and an obedient run leads up to it (`TcpEcho.BeyondEdgeReached`).
- A parent that waits for a child whose exit is already recorded goes to sleep exactly if it
  has collected that record before and the child is not a zombie yet
  (`SchedExit.SleepsExactlyIf`): the record is published first, so only the first wait is
  covered. `SchedSecondWait.SecondWaitSleeps` is a run from the start of the system that
  ends in such a sleep; the child's wake-up has been spent before it.
- With a valid copy at hand, a save may be cut off anywhere in its first file exactly if the
  primary is valid (`UserCommit.OnlyValidPrimarySurvives`). Recovery heals the primary first,
  but ignores whether that succeeds: a failed heal and one crash lose both copies
  (`UserCommit.FailedHealCanLose`).
- The next uid after loading is free exactly unless the numbers are used up
  (`UserCodec.NextUidIsFree`).
- After a tab completion the screen still shows the line exactly if what was inserted is
  printable (`LineEditor.CompletionMirrors`).

The header comment of `fs/fat32.c` calls the driver read-only and without long names or
subdirectories, and that of `kernel/user.c` gives five fields per line; the code does
more, and the models follow the code.

## Model

| member | source | states |
|---|---|---|
| TcpLink.StreamsArePrefixes | net/tcp.c:707-1085 | Two endpoints over a network that loses, repeats and reorders every segment: in every run each handler has been given a prefix of what the other side's tcp_write accepted, and a FIN is taken only behind all of it |
| TcpLink.RunInv | net/tcp.c:570-1243 | Every event at either endpoint (segment, write, close, timer, keepalive, abort) keeps the sending and receiving invariants of both |
| TcpLink.SendSpaceEverywhere | net/tcp.c:553-613 | Send space in every reachable state: flight at most the queue in the data phases, exactly queue plus FIN once the FIN is out, FIN right behind the last accepted byte, scoreboard clear from sndlen on |
| TcpLink.FlightBound | net/tcp.c:570-613 | The sending loop moves snd_nxt forward by at most the usable window |
| TcpLink.OutputWithinWindow | net/tcp.c:570-613 | New data never pushes the flight past min(cwnd, snd_wnd) |
| TcpSend.TryFinKeeps | net/tcp.c:553-568 | A requested FIN goes out only when all queued bytes are sent, and then sits behind the last accepted byte |
| TcpSend.SendChunkKeeps | net/tcp.c:599-606 | A segment of unsent bytes carries exactly the stream bytes at snd_nxt |
| TcpSend.OutputKeeps | net/tcp.c:570-614 | Sending keeps the send-space invariant and puts only true stream bytes on the wire |
| TcpSend.WriteKeeps | net/tcp.c:616-644 | tcp_write appends to the stream what it accepts and keeps every invariant |
| TcpSend.CloseKeeps | net/tcp.c:675-705 | An active close keeps the FIN behind the buffered data |
| TcpSend.AckWithinFlight | net/tcp.c:913-922 | An acceptable cumulative ACK advances by at most the flight, in modular arithmetic |
| TcpSend.CumAckQueue | net/tcp.c:913-922 | After a cumulative ACK the queue is again a tail of the stream and the scoreboard is clear behind it |
| TcpSend.CumAckPhase | net/tcp.c:913-941 | The bytes it drops are exactly the acknowledged ones: afterwards snd_una stands right at the head of the queue, and a FIN right behind its end |
| TcpSend.FastRetransmitKeeps | net/tcp.c:956-971 | Fast retransmit resends true stream bytes from snd_una and keeps the invariants |
| TcpSend.ClipEdgeInRange | net/tcp.c:978-998 | Any 32-bit SACK edge is clipped into the queue, so marking stays below sndlen |
| TcpSend.OnAckKeeps | net/tcp.c:897-1027 | All of ACK processing keeps the sending invariants and leaves the receiving half alone |
| TcpSend.RtxKeeps | net/tcp.c:1167-1243 | Every retransmission branch of tcp_tick (SYN, data, persist probe, FIN) sends only what was sent before or the next stream byte |
| TcpFlow.WindowFollows | net/tcp.c:537-546 | After a newer segment without SYN the send window is the window of that segment, scaled, and after an older one it is what it was |
| TcpFlow.SentIntoWindow | net/tcp.c:570-608 | Whatever an ACK lets go out is data sent before, or ends within the window that segment grants behind the new snd_una |
| TcpFlow.ClosedWindow | net/tcp.c:580-586 | A newer segment with window 0 lets no new data out |
| TcpFlow.OutputSends | net/tcp.c:570-613 | What tcp_output sends ends within the peer's window, and nothing but snd_nxt, the phase and the receiver's edge changes |
| TcpProgress.OutputGoesOn | net/tcp.c:586-613 | tcp_output stops only when all is sent, a window is used up, or a small piece has to wait for data in flight; when all is sent a pending FIN goes out |
| TcpProgress.FinGoes | net/tcp.c:553-568 | The FIN goes out, behind the last byte, exactly if it is pending and everything has been sent, and the close begins |
| TcpProgress.CloseBegins | net/tcp.c:675-698 | Closing an open connection sends the FIN, or leaves it pending while data are unsent |
| TcpProgress.TimeoutResends | net/tcp.c:1194-1216 | A timeout with data in flight sends at least one byte from snd_una on again, the congestion window is one segment and the threshold half the flight, except towards a closed window |
| TcpProgress.GapFirst | net/tcp.c:1199-1207 | What is sent again are the first bytes not reported as received, a segment of them, or up to the next byte that is |
| TcpProgress.TimeoutProbes | net/tcp.c:1217-1221 | A closed window and nothing in flight: exactly one further byte is sent |
| TcpProgress.TimeoutRepeats | net/tcp.c:1167-1181 | SYN, SYN-ACK and FIN are sent again where they were |
| TcpProgress.DuplicatesCount | net/tcp.c:942-983 | The third duplicate ACK sends the first gap at once and inflates the congestion window, further ones inflate it by a segment, the first two only count |
| TcpProgress.NewAckGrows | net/tcp.c:916-941 | A new ACK takes off what it acknowledges; the congestion window grows by at most a segment below the threshold, and by a segment's share of the window above it |
| TcpProgress.AckedPhases | net/tcp.c:1003-1013 | An ACK of our SYN opens the connection, one of our FIN ends FIN_WAIT_1 or the connection |
| TcpProgress.BlockMarks | net/tcp.c:977-1001 | A SACK block marks exactly the queued bytes from its left edge up to its right one, whatever the edges are |
| TcpSend.EdgeKept | net/tcp.c:296-318 | seg_out never advertises an edge beyond the free echo space, also when silly-window avoidance holds an old edge or the edge shrinks |
| TcpReceive.StoredRight | net/tcp.c:709-724 | A segment stored at any offset, overlapping or not, leaves every marked byte equal to the peer's stream |
| TcpReceive.DeliverKeeps | net/tcp.c:725-743 | The bytes handed over are the next bytes of the peer's stream |
| TcpReceive.ReasmKeeps | net/tcp.c:707-745 | reasm_insert, with the handler's writes and closes in the middle, keeps both halves of the endpoint |
| TcpReceive.FinIsLast | net/tcp.c:1057-1068 | A FIN is accepted only once every stream byte before it has been handed over |
| TcpArrive.InOrderHandedOver | net/tcp.c:707-745 | A segment at rcv_nxt is handed over whole and at once, with whatever it joins to |
| TcpArrive.KeptInWindow | net/tcp.c:709-723 | Every byte inside the window is kept at its place, whatever arrives around it, the last one winning, and nothing kept is lost |
| TcpArrive.AnsweredAtOnce | net/tcp.c:1038-1049 | A segment that leaves a gap, and everything after a FIN, is answered at once with a pure ACK of what is complete |
| TcpArrive.FinTaken | net/tcp.c:1065-1098 | The peer's FIN behind the last byte is taken and acknowledged, and the close goes on |
| TcpArrive.WindowOffered | net/tcp.c:299-317 | Every segment offers all the space both buffers have, or the edge offered before if that is hardly less |
| TcpArrive.NudgeAnswers | net/tcp.c:1139-1163 | A delayed ACK acknowledges everything received; a keepalive probe does so one before snd_una |
| TcpArrive.SynAnswered | net/tcp.c:865-895 | A SYN-ACK of our SYN opens the connection at the peer's position and unscaled window and is acknowledged; one of anything else ends it |
| TcpArrive.SynTaken | net/tcp.c:796-818 | A SYN is answered by a SYN of our own that acknowledges it |
| TcpReceive.InputKeeps | net/tcp.c:747-1110 | tcp_input on any segment of an honest peer keeps every invariant and only extends what was delivered and accepted; resets, PAWS drops and a SYN that replaces the block are not part of this step |
| TcpEcho.RoomForEcho | net/tcp.c:299-318 | Every handler call in ESTABLISHED finds send-buffer room for all bytes it is given |
| TcpEcho.EchoIsLossless | net/tcp.c:299-318 | An application that writes back what it gets never loses a byte if the peer stays below the largest edge ever advertised, in every run |
| TcpEcho.EchoWholeExactlyIf | net/tcp.c:616-636 | For any segment in any state of an established echo server: what is handed over is the contiguous prefix, what is echoed is as much of it as fits the free send buffer, all of it exactly if it fits |
| TcpEcho.BeyondEdgeIsLost | net/tcp.c:616-636 | The peer's obedience is needed: one byte beyond the edge on a full send buffer is handed over and its echo refused |
| TcpEcho.BeyondEdgeReached | net/tcp.c:747-1110 | An obedient run from the SYN on that ends with a full send buffer, and so in such a loss |
| TcpBlock.ControlBlock.SegOut | net/tcp.c:284-373 | seg_out on the fields: chooses the edge and emits one segment, exactly as the value model; option bytes and checksum are not part of it |
| TcpBlock.ControlBlock.TryFin | net/tcp.c:553-568 | tcp_try_fin in place computes the model's FIN step |
| TcpBlock.ControlBlock.SendLoop | net/tcp.c:587-609 | The segment loop of tcp_output computes the recursive model |
| TcpBlock.ControlBlock.Output | net/tcp.c:570-614 | tcp_output on the fields |
| TcpBlock.ControlBlock.Write | net/tcp.c:616-644 | tcp_write on the array: state and return value |
| TcpBlock.ControlBlock.Close | net/tcp.c:675-705 | tcp_close on the fields |
| TcpBlock.ControlBlock.CumAck | net/tcp.c:913-941 | The shift of queue and scoreboard, and window growth, in place |
| TcpBlock.ControlBlock.ResendLength | net/tcp.c:961-966 | The scan for the first gap of the scoreboard finds its length, cut to one segment |
| TcpBlock.ControlBlock.FastRetransmit | net/tcp.c:956-971 | The third duplicate ACK on the fields |
| TcpBlock.ControlBlock.MarkSacks | net/tcp.c:978-998 | Both clipped edges of every block mark exactly the covered offsets |
| TcpBlock.ControlBlock.OnAck | net/tcp.c:897-1027 | ACK processing in place computes the model |
| TcpBlock.ControlBlock.SackBlocks | net/tcp.c:268-281 | build_sack_blocks lists the first maximal runs of marked bytes in ascending order and misses none before the limit |
| TcpBlock.ControlBlock.Store | net/tcp.c:709-724 | The byte loop with its skip and break stores exactly the bytes whose position lies in the window |
| TcpBlock.ControlBlock.Reassemble | net/tcp.c:707-745 | reasm_insert in place, handler call included |
| TcpBlock.ControlBlock.Input | net/tcp.c:747-1110 | tcp_input on the fields and arrays computes the model of one segment, without the reset, PAWS and replacing-SYN paths |
| TcpBlock.ControlBlock.Nudge | net/tcp.c:1139-1163 | The keepalive probe and the delayed ACK of tcp_tick in place |
| TcpBlock.ControlBlock.Retransmit | net/tcp.c:1167-1243 | The retransmission branch of tcp_tick in place, without counting retries and giving up |
| TcpBlock.StoredNext | net/tcp.c:709-724 | One round of the storing loop stores one byte at its offset or changes nothing |
| TcpBlock.BeyondWindow | net/tcp.c:714-716 | The first byte beyond the window ends the loop safely: no later byte comes back into the window |
| Words.SeqOrder | net/tcp.c:117-120 | Modular comparison of two positions less than 2^31 apart agrees with their order |
| FatChain.RunnersMeet | fs/fat32.c:182-208 | On a cycle tortoise and hare meet within max_cluster - 2 steps |
| FatChain.EndsOrCycles | fs/fat32.c:160-208 | A walk ends exactly if it does not lead into a cycle, on an arbitrary table |
| FatChain.EndingWalk | fs/fat32.c:182-208 | A walk that ends visits at most max_cluster - 2 clusters, each once |
| FatChain.FreeCounts | fs/fat32.c:789-814 | fat_free_chain adds exactly the number of entries it turned to zero, on any table |
| FatChain.FreeExactly | fs/fat32.c:789-814 | After fat_free_chain exactly the clusters reachable from the start are free, all other entries are as before, also on cyclic or cross-linked tables |
| FatChain.AllocFinds | fs/fat32.c:763-787 | The search with hint and wrap-around fails exactly on a full volume and never hands out a used cluster |
| FatChain.AllocIsFirst | fs/fat32.c:763-778 | The cluster handed out is the first free one from the hint on, else the first free one of all |
| FatOwner.AllocKeeps | fs/fat32.c:763-787 | A new cluster is a chain of its own, owned by nobody before; the count stays exact |
| FatOwner.LinkKeeps | fs/fat32.c:1155-1160 | Hanging a chain behind another keeps all chains acyclic and disjoint |
| FatOwner.FreeKeeps | fs/fat32.c:789-814 | Freeing an owned chain zeroes exactly its clusters and keeps the ownership invariant |
| FatOwner.GivesBack | fs/fat32.c:1151-1154 | Giving a part-built chain back restores table and free count exactly |
| FatOwner.AllocMoreKeeps | fs/fat32.c:1149-1174 | The allocation loop ends with a complete chain or with table and count as before |
| FatFiles.StepOwns | fs/fat32.c:1119-1387 | On the table alone, with the start clusters in use as a set: what each operation does to chains and free count keeps every used cluster owned |
| FatOps.RunOwns | fs/fat32.c:1119-1387 | In every run of writes, deletes, mkdirs and rmdirs on any paths, whose new names are all seen, the clusters in use are exactly those of the root and of what entries reachable from the root name, read from the directory bytes; each has one owner, chains are acyclic, the free count is exact |
| FatOps.StepKeeps | fs/fat32.c:1119-1387 | Each operation on any path, successful or refused, leaves a tree of well-formed directories in which every chain has exactly one name and the dots are right, if a new name is seen |
| FatEffect.DeleteEffect | fs/fat32.c:1221-1253 | Deleting a file takes exactly its entry out of its directory and zeroes exactly its clusters in the table; every other directory lists what it did |
| FatEffect.OverwriteEffect | fs/fat32.c:1119-1219 | Overwriting replaces exactly one entry's start and size; the new chain has the clusters the contents need, free before and holding the contents; exactly the old chain is freed |
| FatEffect.NewFileEffect | fs/fat32.c:1198-1206 | A new file adds exactly one entry, with its names, start, size and kind; its chain holds the contents; all other entries and chains stay, but for one cluster the directory may grow by; it is stored exactly if the name can be, while a cluster is left |
| FatEffect.FullEffect | fs/fat32.c:1149-1154 | Without room for the contents no entry and no table entry changes |
| FatEffect.MakeDirEffect | fs/fat32.c:1295-1353 | mkdir adds exactly one entry and one directory, in one cluster that was free, listing exactly . and ..; all other entries and chains stay |
| FatEffect.RemoveDirEffect | fs/fat32.c:1354-1387 | rmdir of a directory that lists only its dots takes out exactly its entry and zeroes exactly its clusters; any other directory stays as it is |
| FatEffect.ImpossibleChangesNothing | fs/fat32.c:1119-1387 | Paths that cannot be walked, names that are missing, taken or of the wrong kind, and dot names change nothing |
| FatFound.WrittenIsFound | fs/fat32.c:1119-1219 | After a write under any 7-bit name, new or not, the path leads to a file of that size whose chain holds what was written |
| FatFound.MadeIsWalked | fs/fat32.c:1295-1353 | After mkdir under a 7-bit name the path with this name leads to the new directory, which lists . and .. |
| FatFound.PathStays | fs/fat32.c:478-514 | Path walks end where they did after an operation that leaves other directories alone |
| FatVanish.StepExactlyIf | fs/fat32.c:1057-1069 | Each operation on any path and under any name leaves every used cluster owned exactly if it does not store a new file with contents or a new directory under a short name that begins with the deletion mark |
| FatVanish.RunExactlyIf | fs/fat32.c:1119-1387 | The same for every run: each used cluster is owned at every point exactly if no operation stores under such a name |
| FatVanish.FileLost | fs/fat32.c:1057-1069 | The input: on a new volume a file written as E5 41 is accepted, and its cluster is nobody's |
| FatOps.OwnsMeans | fs/fat32.c:160-180 | What that says about walks: a walk from a live start cluster ends inside the data area, no two share a cluster, every used cluster is on one, and the free count is the number of zero entries |
| FatOps.NewVolumeKept | fs/fat32.c:210-256 | A volume with an empty root directory is such a volume, so the runs have a beginning |
| FatRmdir.RmdirExactlyIf | fs/fat32.c:1355-1387 | Removing a directory that passes the emptiness test leaves every used cluster owned exactly if no entry in it other than . and .. names a chain |
| FatLive.LiveIs | fs/fat32.c:478-514 | What is reached from the root through directory entries is exactly what the tree of names has |
| FatLive.WalkLives | fs/fat32.c:478-514 | In a volume in order every path that can be walked, dots included, ends in a live directory |
| FatLive.DotsName | fs/fat32.c:1323-1329 | . names the directory it is in, and .. the one whose entry names that directory, the root as 0 |
| FatOps.NoDotStored | fs/fat32.c:1057-1073 | The short name stored for any leaf never begins with a dot, so nothing the driver stores passes for . or .. |
| FatNaming.AddDir | fs/fat32.c:1295-1353 | A new directory named once hangs one deeper in the tree, and everything else keeps its one name |
| FatNaming.RemoveSubdir | fs/fat32.c:1355-1387 | Taking a directory that names nothing out of the tree leaves every other chain its one name |
| FatNaming.Redirect | fs/fat32.c:1183-1215 | An overwrite gives an entry a new chain and leaves the old one without a name |
| FatRuns.PutNear | fs/fat32.c:1002-1085 | Storing an entry under whatever name keeps every long-name run inside one cluster, also when end marks are passed over and the directory grows |
| FatRuns.DeleteNear | fs/fat32.c:1092-1117 | Where runs stay inside their cluster, deleting leaves no orphan slot and keeps them there |
| FatRuns.RepointItems | fs/fat32.c:1183-1196 | Overwriting an entry changes one reported item, in start and size only |
| FatOnDisk.DirOnDisk | fs/fat32.c:312-397 | The directory the runs speak of is the one a path walk reads from the disk blocks |
| FatOnDisk.WalkOnDisk | fs/fat32.c:478-514 | The path walk of the runs is the one on the disk blocks |
| FatOnDisk.ShapedOnDisk | fs/fat32.c:210-256 | Every mounted disk has the slots of whole clusters, as the runs need it |
| FatOnDisk.PatchIsRepoint | fs/fat32.c:1183-1196 | The overwritten slot of the runs is the patched entry of the block |
| FatInPlace.OverwriteFile | fs/fat32.c:1119-1219 | Overwriting a file in place through the mounted volume carries the volume on the blocks to the write step of the runs, so a volume in order stays in order, with exactly the live chains in use |
| FatInPlace.OverwriteIsStep | fs/fat32.c:1119-1219 | The blocks an overwrite leaves, accepted or refused, are the volume after the write step of the runs, with the contents as what it leaves on free clusters |
| FatInPlace.AreaStored | fs/fat32.c:1183-1198 | Nothing of the data area but free clusters and the one slot of the entry has changed, and that is the directory stored with its slot overwritten |
| FatInPlace.EntryInOrder | fs/fat32.c:1131-1139 | On a volume in order the entry a path leads to is that of a live file with a chain of its own |
| FatFiles.DiskFullRestores | fs/fat32.c:1149-1154 | A data allocation fails exactly when it needs more clusters than are free, and then leaves FAT and count exactly as they were |
| FatDisk.MountIsSound | fs/fat32.c:210-256 | Whatever boot sector mounts, every valid cluster's sectors lie in the partition and its entry in each FAT copy; FSInfo stays clear of the FATs exactly if its sector lies in the reserved area |
| FatFormat.MountReads | fs/fat32.c:220-254 | A boot sector laid out by number mounts exactly if its fields allow; FATs, data area, root and FSInfo are where the fields say, with as many clusters as fit |
| FatFormat.EntryAt | fs/fat32.c:160-172 | A table entry is the low 28 bits of four bytes at its place in its FAT copy |
| FatFormat.ReadBytes | fs/fat32.c:645-702 | Each byte of a file read is the byte of its sector in the k-th cluster of the chain, by number |
| FatDisk.SetEntry | fs/fat32.c:737-759 | One FAT write seen from any entry of any copy: only that entry's low 28 bits change |
| FatDisk.SetCopiesTable | fs/fat32.c:737-759 | fat_set_next changes exactly one entry in every copy already written and no block outside the FATs |
| FatDisk.ClustersApart | fs/fat32.c:155-158 | Different clusters share no sector |
| FatContents.ReadSame | fs/fat32.c:645-702 | A file whose chain keeps away from the changed clusters reads the same |
| FatContents.ReadBack | fs/fat32.c:1161-1172 | Contents laid out along a fresh chain are what reading returns |
| FatContents.PatchedEntry | fs/fat32.c:1183-1196 | Overwriting sets start and size of one entry and leaves its name bytes and all other entries alone |
| FatContents.EnoughClusters | fs/fat32.c:1144-1145 | The 32-bit cluster count covers the contents exactly when its rounding up does not wrap |
| FatCrash.EveryPrefix | fs/fat32.c:1119-1219 | After every prefix of the block writes of an overwrite the entry reads as the old contents or exactly the new ones |
| FatCrash.OthersUntouched | fs/fat32.c:1119-1219 | In each of these states every other live file reads as before |
| FatPath.PathIsAtomic | fs/fat32.c:478-514 | The same by path: from the root through directory slots, each path reads as before, or leads to the overwritten entry and reads exactly the new contents |
| FatRecovery.ManyCrashes | fs/fat32.c:1119-1219 | However many overwrites are cut off one after the other, each begun after a mount of what the last one left: every file reads as at the start or exactly as one of its own overwrites was to leave it |
| FatRecovery.OneCrash | fs/fat32.c:1119-1219 | Wherever one overwrite stops, the entries are again entries of live files with acyclic disjoint chains, and only its own file may have changed, to exactly the new contents |
| FatRecovery.Attempt | fs/fat32.c:1119-1219 | A mount with whatever free count and one overwrite in place: every disk state it records is one such a cut-off overwrite may leave |
| FatRecovery.TryFollows | fs/fat32.c:1119-1219 | Such a state continues a row of cut-off overwrites |
| FatRecovery.EntryByPath | fs/fat32.c:478-514 | The entry a path leads to is the entry of a live file, as an overwrite needs it |
| FatRecovery.TreeKept | fs/fat32.c:1119-1219 | A cut-off overwrite leaves the live directory tree with the entry where it was, so paths lead to it again |
| FatPath.WalkSame | fs/fat32.c:478-514 | Path walks come to the same directory in every such state |
| FatVolume.Volume.FatNext | fs/fat32.c:160-172 | The cached read returns the table entry; the cache is never stale |
| FatVolume.Volume.FatSetNext | fs/fat32.c:737-759 | All copies are rewritten, the cache is dropped, nothing else changes on the way |
| FatVolume.Volume.AllocCluster | fs/fat32.c:763-787 | fat_alloc_cluster in place: cluster, table, count and hint, and FSInfo holds count and hint afterwards |
| FatVolume.Volume.FreeChain | fs/fat32.c:789-814 | fat_free_chain in place, terminating on any table; if anything is freed FSInfo holds count and hint afterwards |
| FatVolume.Volume.ChainStep | fs/fat32.c:190-208 | One step of the walk and two of the hare |
| FatVolume.Volume.WalkChain | fs/fat32.c:190-208 | A walk ends after at most max_cluster - 2 clusters, covers an ending chain once in order, and reports a cycle exactly when the start leads into one |
| FatVolume.Volume.CountFree | fs/fat32.c:281-287 | The free count scanned at mount is the number of zero entries |
| FatVolume.Volume.ReadChain | fs/fat32.c:678-698 | The reading loop returns the bytes along the chain, or fails if it ends early |
| FatVolume.Volume.WriteChain | fs/fat32.c:1144-1174 | The writing loop lays the contents out on fresh clusters or restores table and count, also when the count on entry is not exact; every block write on the way touches only clusters that were free |
| FatVolume.Volume.Overwrite | fs/fat32.c:1119-1219 | Overwriting reads back the new contents; on a full volume the table is unchanged; every disk state on the way is old or new, and again one with acyclic disjoint live chains, whatever the free count was |
| FatLfn.NarrowedSame | fs/fat32.c:338-383 | A long name is read back as written exactly if it is 7-bit |
| FatLfn.RunGoesOn | fs/fat32.c:348-366 | Reading a long-name slot in sequence continues the run |
| FatLfn.SetLfnEntry | fs/fat32.c:979-997 | set_lfn_entry fills the thirteen characters of a slot |
| FatLfn.LfnSlotIs | fs/fat32.c:979-997 | Each of them is the name's character, its terminator, or padding |
| FatLfn.DirentFields | fs/fat32.c:903-924 | A written short entry reads back with its start cluster and size |
| FatDir.EntryReadsBack | fs/fat32.c:312-388 | The slots of a stored entry are reported as exactly one item with its name |
| FatDir.InsertItem | fs/fat32.c:1057-1085 | Filling free slots of a well-formed directory adds exactly that item |
| FatPlace.PlaceTidy | fs/fat32.c:1002-1038 | Looking for a run, with end marks passed on the way turned into deletion marks, changes nothing the directory reports and finds a run the scan reaches |
| FatPlace.AllocRunTidy | fs/fat32.c:1002-1050 | The same with growth by a zeroed cluster, which fails only without room |
| FatPlace.FindsVacant | fs/fat32.c:818-878 | For an absent short name the first free slot is chosen, or none is free |
| FatEntry.AliasFresh | fs/fat32.c:940-976 | The short alias is one nobody answers to; there is none only if ~1 to ~9 are all taken |
| FatEntry.PutEntryInserts | fs/fat32.c:1057-1085 | Storing an absent name of any bytes that is seen adds exactly one item, with the long name narrowed to 7 bits, keeps the directory well-formed, and fails only for space, length or aliases |
| FatEntry.PutEntryVanishes | fs/fat32.c:1057-1069 | Storing a short name that begins with the deletion mark succeeds like any other, and the directory reports what it did before |
| FatEntry.PutEntryAdds | fs/fat32.c:1057-1085 | A 7-bit name becomes findable under exactly that name and its alias |
| FatEntry.LookupsAfterPut | fs/fat32.c:436-474 | Afterwards lookups in any spelling, letters compared byte by byte, find the new item under its two names and everything else as before |
| FatSpelling.FoundInAnySpelling | fs/fat32.c:436-454 | Names that differ only in bytes 0x61 to 0x7A against 0x41 to 0x5A are found alike |
| FatSpelling.AnswersExactly | fs/fat32.c:446-459 | An entry answers exactly to the spellings of its long and its short name, bytes written out |
| FatSpelling.FindsFirst | fs/fat32.c:464-474 | A lookup gives the first entry with a name spelled like the one looked for, or none if there is none |
| FatSpelling.StoredInCapitals | fs/fat32.c:119-138 | No stored short name holds a small letter |
| FatSpelling.ShortNameIs | fs/fat32.c:119-152 | A name of eight and three characters is stored in capitals, filled with spaces, and listed it is spelled like the name |
| FatFormat.ScanReports | fs/fat32.c:312-397 | A scan reports exactly the slots before the first zero that are not free, deleted, long-name slots or labels, each with its own bytes |
| FatFormat.DirentBytes | fs/fat32.c:903-924 | The 32 bytes of a directory entry by number |
| FatFormat.LfnSlotBytes | fs/fat32.c:979-1000 | Ordinal, attribute, checksum and the thirteen characters of a long-name slot by number |
| FatFormat.ChecksumStep | fs/fat32.c:294-301 | The checksum rotates right and adds, from 0 |
| FatFormat.AliasForm | fs/fat32.c:940-966 | An alias is one to six letters, digits or the placeholder, a tilde and its number, and an extension of such characters, filled with spaces |
| FatDelete.DeleteRemoves | fs/fat32.c:1092-1117 | Deleting takes exactly the entry's item out of what the directory reports, and keeps it well-formed exactly if the entry's run begins in its own cluster |
| FatDelete.DeleteFound | fs/fat32.c:1221-1252 | Deleting what a lookup found removes exactly that item, with the same condition for leaving no orphan slot |
| FatDelete.LookupsAfterDelete | fs/fat32.c:436-474 | Other lookups find what they found before |
| FatDirectory.Directory.Lookup | fs/fat32.c:312-397 | The scan with its long-name state finds the first matching item |
| FatDirectory.Directory.FindOrAlloc | fs/fat32.c:818-878 | dir_find_or_alloc up to growth |
| FatDirectory.Directory.AllocRun | fs/fat32.c:1002-1050 | dir_alloc_run in place, given whether a cluster to grow by is free |
| FatDirectory.Directory.PutEntry | fs/fat32.c:1057-1085 | dir_put_entry in place |
| FatDirectory.Directory.ShortAlias | fs/fat32.c:940-976 | make_short_alias |
| FatDirectory.Directory.MarkDeleted | fs/fat32.c:1092-1117 | mark_deleted_with_lfn in place |
| FatTree.EmptyMeansDotted | fs/fat32.c:1257-1293 | A directory passes the emptiness test exactly if every name it reports begins like . or .. in its first three bytes |
| FatTree.EmptyMeansDotsOnly | fs/fat32.c:1257-1293 | What passes the test holds nothing but the real . and .. exactly if no name hides behind those bytes |
| FatTree.HiddenEntry | fs/fat32.c:1257-1293 | A well-formed directory that passes the test and in which a lookup of ..XYZ finds a file |
| FatTree.FreshDirIsEmpty | fs/fat32.c:1320-1339 | A directory made by mkdir is well-formed, empty, and holds . and .. with the right clusters |
| FatTree.DirIsEmpty | fs/fat32.c:1257-1293 | dir_is_empty as a loop |
| IpcRun.MutexProtocol | kernel/ipc.c:83-177 | In every interleaving: one holder at most, nobody asleep on an unlocked mutex, the owner at least as urgent as every sleeper, boosts only on owners |
| IpcRun.LockKeeps | kernel/ipc.c:83-137 | A lock call returns 0 at once exactly if the mutex is free, as its owner; -1 exactly if it is not and a deadline was set and has come; else the task sleeps on it |
| IpcRun.RecheckKeeps | kernel/ipc.c:120-132 | After a wake-up the call returns 0 exactly if served, as owner or with a token; -1 exactly if not and the deadline woke it or has come; else the task sleeps again |
| IpcTime.OnlyInTime | kernel/ipc.c:26-54 | In every run a call that returns -1 was made with a timeout, and at least as many ticks ago: a call without one never returns -1 |
| IpcTime.NotAtOnce | kernel/ipc.c:33-38 | No call gives up in the section in which it begins |
| IpcTime.DeadlineStays | kernel/ipc.c:118-132 | While a task is inside a wait it waits for exactly the deadline its call asked for |
| IpcRun.MutexWakeup | kernel/ipc.c:117-132 | A mutex waiter is woken either as owner or by its deadline, never both and never for nothing |
| IpcRun.UnlockKeeps | kernel/ipc.c:144-177 | Unlocking restores the owner's priority without boost, also after a handoff, and hands over to the most urgent waiter, the earliest among equals |
| IpcRun.SemaphoreProtocol | kernel/ipc.c:26-70 | Tokens are conserved and never negative; while anybody sleeps at least as many woken waiters as tokens are on their way |
| IpcInv.SemLoopKeeps | kernel/ipc.c:33-50 | A wait takes a token exactly when it returns 0, at once exactly if there is one; -1 exactly if there is none and a deadline was set and has come; else the task sleeps |
| IpcInv.PostKeeps | kernel/ipc.c:57-70 | A post adds a token and wakes the most urgent sleeper, the earliest among equals, if anybody sleeps |
| IpcInv.BoostKeeps | kernel/ipc.c:108-116 | Priority inheritance keeps the owner at least as urgent as the new waiter |
| IpcObjects.Machine.WakeBest | kernel/sched.c:494-521 | sched_wake_one wakes the most urgent waiter, the earliest among equals |
| IpcObjects.Machine.SemSection | kernel/ipc.c:33-48 | The semaphore loop up to a return or a sleep |
| IpcObjects.Machine.WaitSection | kernel/ipc.c:26-48 | sem_wait_timeout in place, with its deadline |
| IpcObjects.Machine.LockSection | kernel/ipc.c:83-137 | mutex_lock_timeout up to a return or a sleep |
| IpcObjects.Machine.Post | kernel/ipc.c:57-70 | sem_post in place, with the wake-up, equals the value step that adds a token and wakes the most urgent sleeper |
| IpcObjects.Machine.UnlockSection | kernel/ipc.c:144-177 | mutex_unlock in place |
| IpcObjects.Machine.RecheckSection | kernel/ipc.c:120-132 | What follows a wake-up |
| SchedInv.SchedulerIsSafe | kernel/sched.c:309-400 | In every reachable state: a running task is current on its owner core only, each current slot is in use and owned by its core, each zombie is what its owner reaps, each core has a candidate |
| SchedInv.StepSafe | kernel/sched.c:143-400 | Every step of every core keeps that |
| SchedInv.ReapFreesNoCurrent | kernel/sched.c:341-354 | Reaping frees no slot that is current on any core |
| SchedInv.CreateKeeps | kernel/sched.c:155-225 | A slot is reallocated only if it is unused and current nowhere |
| SchedInv.PickIsBest | kernel/sched.c:309-333 | pick_next chooses a candidate of best priority, the first of them in the round |
| SchedInv.SwitchKeeps | kernel/sched.c:357-386 | The switch keeps the invariant although the task switched away from may have been woken meanwhile |
| SchedFair.RoundRobin | kernel/sched.c:309-333 | In every run from every reachable state: a ready or running task that does not stop itself, with nobody more urgent when its core chooses, is chosen within as many choices of that core as there are slots |
| SchedMoves.SwitchMoves | kernel/sched.c:357-386 | The switch: the chosen task runs, a running one switched away from is ready, one that had stopped is as it was, and no other slot or core changes |
| SchedMoves.TaskMoves | kernel/sched.c:143-400 | Every step of every core moves a task only along the listed ways: preempted only by its core's switch, woken only by wake-up, timer or kill, freed only by its core |
| SchedMoves.StaysRunnable | kernel/sched.c:309-400 | In every run a ready or running task stays so until it sleeps, blocks, waits for a child or dies |
| SchedMoves.EventActs | kernel/sched.c:473-485 | Sleeping, blocking, dying, admitting, timer, kill and boost do what they are for, to one task |
| SchedMoves.PhasesGo | kernel/sched.c:357-400 | A core goes from its task over reaping and choosing to the switch, and no other core moves it |
| SchedMoves.WakesBest | kernel/sched.c:494-521 | A wake-up makes exactly one sleeper ready, the most urgent and first among equals, or does nothing without one |
| SchedMoves.Creates | kernel/sched.c:155-237 | A new task takes one free slot, with the given owner and priority and the next pid |
| SchedMoves.ReapFrees | kernel/sched.c:341-354 | A pending zombie's slot is free after reaping, and nothing else changes |
| SchedMoves.StartsBest | kernel/sched.c:869-893 | A core starts with a most urgent ready task of its own |
| SchedFair.OneCall | kernel/sched.c:322-331 | Each call that passes it over brings the round strictly closer |
| SchedFair.CurrentStays | kernel/sched.c:357-386 | Between a core's own switches no step of any core changes its current task or the choice it has made |
| SchedExit.FirstWait | kernel/sched.c:735-775 | A parent's first wait returns exactly the recorded code, or sleeps while the child lives, and a code is returned only for a record not collected before |
| SchedExit.ExitIsRecorded | kernel/sched.c:826-848 | With a live parent the exit records code & 0xFF |
| SchedFair.SwitchMakesCurrent | kernel/sched.c:357-386 | The switch makes the chosen task current |
| SchedExit.SleepsExactlyIf | kernel/sched.c:735-775 | In every reachable state, waiting for a child whose exit is recorded goes to sleep exactly if the record has been collected and the child is not a zombie yet |
| SchedSecondWait.SecondWaitSleeps | kernel/sched.c:826-860 | A run from the start of the system in which a second wait, between the record and the zombie, sleeps |
| SchedExit.NoFirstWaitSleepsThrough | kernel/sched.c:735-775 | In every reachable state whoever sleeps for a child whose exit is recorded has already collected it once |
| SchedExit.StepBooks | kernel/sched.c:667-848 | Every step keeps records true, unique and unlost |
| SchedTables.Tables.Pick | kernel/sched.c:309-333 | pick_next: both scans |
| SchedTables.Tables.ReapPending | kernel/sched.c:341-354 | reap_pending in place |
| SchedTables.Tables.Schedule | kernel/sched.c:357-386 | schedule in place is the three steps of the runs: reap, choose, switch |
| SchedTables.Tables.CreateInternal | kernel/sched.c:155-225 | task_create_internal takes the first unused slot |
| SchedTables.Tables.WakeBest | kernel/sched.c:494-521 | sched_wake_one in place |
| SchedTables.Tables.Put | kernel/sched.c:688-708 | exitrec_put: a free record, else an orphan's, else the first |
| SchedTables.Tables.RecordSection | kernel/sched.c:840-848 | The exit-record part of task_exit |
| SchedTables.Tables.WaitSection | kernel/sched.c:747-761 | sched_wait_pid up to a return or a sleep |
| UserCodec.LoadBuild | kernel/user.c:195-233 | Loading a saved file gives back exactly the saved accounts |
| UserCodec.TornIsCorrupt | kernel/user.c:337-376 | No strict prefix of a saved file is taken for a valid one |
| UserCodec.RecordsRoundTrip | kernel/user.c:315-333 | Parsing the record lines undoes printing them |
| UserCodec.LineRoundTrip | kernel/user.c:267-307 | A printed line parses back to its account |
| UserCodec.ParsedOk | kernel/user.c:267-333 | Whatever parses is a well-formed list: valid distinct names, right lengths, at most 16 |
| UserCodec.BuildFits | kernel/user.c:195-233 | The file always fits the buffer it is read back into |
| UserCodec.HexRoundTrip | kernel/user.c:114-133 | from_hex undoes to_hex |
| UserCodec.DecRoundTrip | kernel/user.c:135-173 | parse_dec undoes put_dec for every 32-bit number |
| UserCommit.OldOrNew | kernel/user.c:235-259 | After any saves, crashes, failed writes and recoveries a valid copy survives, and recovery gives the last completed list or one whose save was cut off or failed since, as long as no failed write leaves a running system an unreadable primary |
| UserCommit.SaveIsDurable | kernel/user.c:246-259 | A completed save is never lost, whatever crashes and recoveries follow |
| UserCommit.CrashesAreReadable | kernel/user.c:235-259 | Crashes alone, however many, never need that condition |
| UserCommit.StepKeeps | kernel/user.c:384-407 | Each save, crash, failed write and recovery, healing included, keeps that |
| UserCommit.PrimaryFirst | kernel/user.c:384-407 | Recovery gives the primary if it can be read, else the backup if that can be, and nothing else |
| UserCommit.CutOffSave | kernel/user.c:246-259 | A save cut off in the backup is as if it had not begun; one that got beyond the backup leads to the new list, but for a primary still untouched and readable |
| UserCommit.RecoveredList | kernel/user.c:384-402 | Recovery brings that list into memory and into the primary, and leaves the backup alone |
| UserCommit.OnlyValidPrimarySurvives | kernel/user.c:389-399 | With a valid copy at hand, every crash in the first file of a save leaves a readable copy exactly if the primary is valid; this is why recovery heals the primary alone |
| UserCommit.FailedHealCanLose | kernel/user.c:389-399 | A heal that fails unnoticed and one crash lose both copies |
| UserDb.Database.BuildDb | kernel/user.c:195-233 | build_db fills the buffer with the file, and never fails for a well-formed list |
| UserDb.Database.CutLine | kernel/user.c:273-282 | The line is cut at its colons in place into the same fields |
| UserDb.Database.ParseLineAt | kernel/user.c:267-307 | parse_line on the buffer, with the next uid |
| UserDb.Database.ParseAll | kernel/user.c:315-333 | parse_records on the buffer; one invalid line spoils the file |
| UserDb.Database.LoadDb | kernel/user.c:337-376 | load_db: reading errors, header, length and every line, and the next uid counted anew |
| UserCodec.NextUidIsLeast | kernel/user.c:302-304 | The next uid is the least number beyond every uid read, 0xFFFFFFFF aside |
| UserCodec.NextUidIsFree | kernel/user.c:302-304 | It is in nobody's use, unless it has come to 0xFFFFFFFF and somebody has that |
| ShaContext.Context.Update | lib/sha256.c:79-105 | sha_update in its three loops appends to the message hashed so far |
| ShaContext.Context.Final | lib/sha256.c:107-126 | sha_final pads by single bytes, ends, and yields SHA-256 of everything fed |
| ShaContext.HashParts | lib/sha256.c:79-126 | For any split of the message into updates the digest written out is that of the whole |
| ShaContext.Context.Block | lib/sha256.c:41-66 | sha_block computes the compression function of section 6.2.2 of FIPS 180-4 |
| Sha.RoundConstants1 | lib/sha256.c:19-28 | The first eight round constants are the cube roots of the first primes; RoundConstants2 to 8 are the other 56 |
| Sha.InitialValue | lib/sha256.c:68-75 | The initial hash value are the square roots of the first eight primes |
| Sha.TopBit | lib/sha256.c:43-62 | The rotations and shifts of the four functions, by where the top bit goes |
| Sha.ZeroCountIsLeast | lib/sha256.c:109-114 | The zero fill is the least number of zero bytes of section 5.1.1 of FIPS 180-4 |
| Sha.LengthFits | lib/sha256.c:109-119 | The 64-bit length is the message length exactly below 2^64 bits |
| Sha.AbsorbAppend | lib/sha256.c:79-105 | Hashing whole blocks in pieces is hashing them together |
| ShaContext.HmacInto | lib/sha256.c:136-167 | hmac_sha256 is section 2 of RFC 2104, also when key, message and output are one array: everything is read before the first byte is written |
| ShaContext.DeriveBlock | lib/sha256.c:187-194 | One block: U overwritten by its own HMAC, T the exclusive or of all U |
| ShaContext.Derive | lib/sha256.c:169-202 | pbkdf2_sha256 writes the truncated block concatenation, and nothing for a long salt or no iterations |
| ShaContext.DerivesPbkdf2 | lib/sha256.c:176-198 | For output lengths up to 2^32 - 32 that is section 5.2 of RFC 8018 |
| Sha.BlocksCover | lib/sha256.c:176 | The 32-bit block count covers the output exactly up to that length |
| EventRing.PoppedIsPrefix | kernel/gui_input.c:33-52 | Under every interleaving of loads and stores the popped events are a prefix of the accepted pushes, at most 63 are pending, and writer and reader share no slot |
| EventRing.RejectedOnlyWhenFull | kernel/gui_input.c:35-37 | A push is turned away exactly if 63 events are pending at its tail load |
| EventRing.WriterAwayFromReader | kernel/gui_input.c:38-50 | No slot is written while the consumer may still read it |
| EventRing.StepKeeps | kernel/gui_input.c:33-52 | Each load and store keeps the pending events in their slots |
| EventRing.Queue.Push | kernel/gui_input.c:33-42 | gui_input_push without interference appends to the queue or finds it full |
| EventRing.Queue.Pop | kernel/gui_input.c:44-52 | gui_input_pop without interference takes the oldest event |
| LineEditor.Editor.ReadTurn | user/shell.c:272-305 | One turn of the loop: a byte, or an escape sequence with its parameters and intermediates up to the final byte |
| LineEditor.Editor.ReadLine | user/shell.c:267-316 | On any bytes from the keyboard, up to Enter or the end of the input: the line is what the keys mean, the terminal has been given exactly the counted bytes, and it shows the line with the cursor at pos |
| LineEditor.Editor.ReadLines | user/shell.c:267-316 | Line after line on any bytes: the screen shows the line being typed and every remembered line is printable, if completions are |
| LineEditor.ReadingMirrors | user/shell.c:267-316 | The same about the meaning of the bytes, in as many lines as they make and wherever they end; a new shell needs no assumption about what it remembers |
| LineEditor.RememberedPrintable | user/shell.c:141-151 | Remembering a printable line keeps the history printable |
| LineEditor.ScreenMirrors | user/shell.c:266-316 | After every key of any sequence the screen shows exactly the line and blanks, with the cursor where the editor believes it to be, although it only counts what it sends |
| LineEditor.KeyMirrors | user/shell.c:266-316 | A key keeps that exactly if it completes with nothing unprintable |
| LineEditor.CompletionMirrors | user/shell.c:258-262 | A completion keeps it exactly if as much of it as fits the line is printable |
| LineEditor.Editor.Ins | user/shell.c:159-172 | ed_ins inserts at the cursor, redraws the rest, and sends as many backspaces as its loop counts |
| LineEditor.Editor.Del | user/shell.c:174-186 | ed_del removes the character before the cursor, redraws the rest, and sends as many backspaces as its loop counts |
| LineEditor.Editor.Browse | user/shell.c:279-294 | An arrow up or down replaces the line by the remembered one |
| LineEditor.Editor.Complete | user/shell.c:258-262 | The completion text is inserted at the cursor, byte by byte |
| LineEditor.Editor.Enter | user/shell.c:296-316 | Enter returns the line, remembers it, and begins an empty one |
| LineEditor.Editor.Remember | user/shell.c:141-151 | hist_add keeps the last eight lines, newest first, without empty lines and repetitions |
| LineEditor.TypedByte | user/shell.c:311-311 | A byte from 0x20 to 0x7E goes into the line at the cursor, while there is room |
| LineEditor.TypedBackspace | user/shell.c:310-310 | 0x08 and 0x7F take out the character before the cursor |
| LineEditor.TypedArrow | user/shell.c:273-297 | ESC [ A, B, C and D bring the older or the newer line, or move the cursor right or left |
| LineEditor.TypedEnter | user/shell.c:304-308 | 0x0D and 0x0A end the line as it is |
| LineEditor.RememberedIs | user/shell.c:141-151 | A line that is neither empty nor the last one comes first in the history, before at most seven older ones |
| LineEditor.BackspaceUndoes | user/shell.c:159-186 | A character and a backspace cancel out at any cursor position |
| LineEditor.Rotated | user/shell.c:141-156 | The history ring holds the newest lines in order |

## Left out

- TcpLink.StreamsArePrefixes: one incarnation of a connection; a pure SYN that replaces a server block, listeners and ports are not modelled, and a reset appears as an abort that may happen at any time.
- TcpLink.OutputWithinWindow: says nothing about the exact window during fast recovery, where duplicate ACKs are counted in 8 bits and cwnd may wrap.
- TcpEcho.EchoIsLossless: ends with the handler calls made in ESTABLISHED, and counts on delivered data staying a window's width below 2^31 bytes.
- TcpBlock.ControlBlock.SackBlocks: lists the blocks; their option bytes on the wire are not modelled, and incoming SACK options are arbitrary instead.
- TCP option bytes, checksums, PAWS, RTT estimation, retry counts, idle reaping and the time at which timers fire: which timer branch runs is a free choice of the run.
- TcpReceive.InputKeeps: resets, PAWS drops and a SYN that replaces the block are not part of the segment step.
- TcpBlock.ControlBlock.Input: the same.
- TcpBlock.ControlBlock.SegOut: option bytes and checksum of the segment are not modelled.
- TcpBlock.ControlBlock.Retransmit: retries are not counted, and giving up is an abort that may happen at any time.
- TcpBlock.ControlBlock.Nudge: probes are not counted, and when a probe is due or given up is a free choice of the run.
- TcpSend.CumAckQueue: does not say how many bytes are dropped; that is TcpSend.CumAckPhase.
- FatVolume.Volume.Overwrite: for contents whose cluster count does not wrap; block I/O errors other than a crash are not modelled, among them the early returns of fat_set_next without cache invalidation.
- FatPath.PathIsAtomic: for overwriting an existing file; creating one may link a new directory cluster before zeroing it, so creation is not crash-atomic.
- FatInPlace.OverwriteFile: for a file that is there, at the place of the disk its path leads to, and contents whose cluster count does not wrap; storing a new entry is a step on slots in FatOps and in place in FatDirectory, not on disk blocks.
- FatRecovery.ManyCrashes: for overwrites of existing files, from chains that are acyclic and disjoint, with any free count.
- FatOps.RunOwns: starts from a tree of well-formed directories whose dots are right, whose long-name runs stay inside their clusters, and in which no name passes for . or .. that is not; new names are ones that are seen, as FatVanish.RunExactlyIf shows they must be; each operation is whole, without a crash.
- FatFiles.StepOwns: start clusters are a set here, not read from directories; that is FatOps.StepKeeps.
- FatLive.LiveIs: the data area is read as directory slots in clusters; contents of files are whatever was written to clusters that were free.
- FatEntry.PutEntryAdds: for 7-bit names, since others are not read back as written; FatEntry.PutEntryInserts is for all that are seen. Directories have no orphan slots and nothing but zero behind the first zero.
- FatLfn.RunGoesOn: a long-name slot with ordinal 0 ends the run in the model; the code would compute a negative buffer index for one behind a complete run, which no well-formed directory has.
- FatDirectory.Directory.Lookup: directories are sequences of slots in chain order here; that the chain is walked in that order is FatVolume.Volume.WalkChain.
- FatDirectory.Directory.FindOrAlloc: ends where a full directory would grow; growing is part of FatDirectory.Directory.PutEntry.
- FatDirectory.Directory.AllocRun: the cluster a full directory grows by is a parameter (room or none); its allocation is part of FatOps.StepKeeps.
- FAT timestamps are parameters; listings, VFS mounting, path syntax and the cut of a path component to 63 characters are left out.
- IpcRun.MutexProtocol: mutexes are single-level, a task holds at most one, and a kill wakes no mutex waiter; the panic of a second lock by the owner is a precondition.
- IpcRun.SemaphoreProtocol: safety only; that a woken waiter eventually runs is the scheduler's part.
- SchedInv.SchedulerIsSafe: pick_next is one step; a priority change by another core between its two scans is not modelled, nor are address spaces, stacks, floating-point context and weak memory.
- SchedFair.RoundRobin: counts calls of schedule, not ticks; slices and the timer are a free choice of when to schedule.
- SchedExit.FirstWait: while a record slot is free at each exit, and for the first wait on a pid.
- UserCommit.OldOrNew: starts from a state with a valid copy and leaves out first boot and passwords; a failed write that leaves a running system a primary it cannot read ends what is promised, for the reason UserCommit.FailedHealCanLose shows.
- ShaContext.Derive: the output does not overlap password or salt; wiping of local buffers and the random generator are left out.
- EventRing.PoppedIsPrefix: sequentially consistent memory; the barriers of the code are what provides it.
- LineEditor.Editor.ReadLine: what a completion inserts is any function of line and cursor, the input is a finite sequence of bytes whose end is waited at, the terminal does not wrap, and unprintable bytes other than the backspace draw nothing.
- Drivers, interrupt and MMU code, GUI programs, DHCP, DNS, UDP, HTTP, the ELF loader and the boot sequence would mostly add single loops or hardware.
