# Device farm control plane: a verified model

This project models the parts of the farm's Go code whose behaviour cannot be
settled by reading one branch, and proves what they promise:

- the **ADB file-sync session**: requests and replies without ids on one byte
  stream, its flags, its loops over a fixed staging buffer (`SyncWire`,
  `SyncVerdict`, `SyncSession`, `SyncExclusion`, `FileModes`);
- the rest of **adbwire**: host framing, shell v2 framing and the capped drain,
  the device-list parser, addressing, the single-slot tracker, shell quoting
  (`HostFraming`, `ShellV2`, `DeviceListing`, `ConnStates`, `Addressing`,
  `Tracker`, `ShellQuote`);
- the **blob collector**, interleaved with uploads (`BlobSweep`);
- **quarantine** opens and closes (`Quarantine`, `QuarantineScopes`,
  `QuarantineTables`);
- the **bulk-run scheduler** as a transition system (`BulkRun`);
- the **timeline query**, the **stream tickets** and the **log budget**
  (`EventQuery` with `EventSubjects` and `Newest`, `StreamTickets`, `LogBudget`).

`Bytes`, `Decimal`, `Text`, `Options` and `Io` hold what these share, and
`WireBytes` fixes ids, byte order, mode words and limits at concrete bytes. `Io` is the
socket: an unbounded byte sequence with a cursor, whose fragmentation, `(0, nil)`
and `(n, EOF)` answers, short writes and failures are scripts fixed in advance,
so every theorem about a reader or writer is about all of them. `dfyconfig.toml`
names every file; `dafny verify dfyconfig.toml` checks the project.

## Where the code does not do what is said of it

Each of these is modelled as the code has it, shown on a concrete input, and
then delimited exactly.

- **Quarantine coverage.** The farm-wide lock serialises closes only. An open
  that commits between a close's release statement and its commit can leave a
  device enabled under an open row (`Quarantine.RaceStrandsCoverage`). Coverage
  survives a close if and only if no such open takes back a device the statement
  released (`Quarantine.CloseWindowExact`, `Quarantine.CommitExact`,
  `QuarantineTables.Tables.CloseRow`), and survives every step of a run if and
  only if no commit of the run is raced (`Quarantine.CoverageIffRaceFree`). A
  race breaks one half only, that a covered device is held out. The other half,
  that a device quarantined in either column has an open row that covers it, and
  that no two open rows name one subject, holds after every step of every run,
  raced or not (`Quarantine.NeverStranded`).
- **`Truncated`.** The field is documented as "the cap was reached and the rest
  was discarded". An empty output packet arriving at the cap sets it though
  nothing was lost (`ShellV2.EmptyPacketReportsLoss`). A cleared flag always
  means that nothing was lost; the flag is right if and only if it is not the
  case that the output is exactly as long as the cap and an empty output packet
  arrives once it is filled (`ShellV2.TruncationMeansLoss`).
- **A nil error from the drain.** It does not mean whole packets only: the stream
  may also end exactly between a header and its payload
  (`ShellV2.OrphanHeaderIsSilent`). `ShellV2.Drain` states when the error is nil
  as an if-and-only-if.
- **Listing lines.** A serial survives unless its line happens to open with the
  no-serial sentinel (`DeviceListing.SerialKeptIff`,
  `DeviceListing.SentinelCollision`); a state survives unless its last word looks
  like a tail token (`DeviceListing.StateKeptIff`, `DeviceListing.StateSwallowed`);
  a device is listed unless its serial starts with an asterisk, which makes its
  line an announcement (`DeviceListing.ListedWholeIff`,
  `DeviceListing.StarredIsDropped`).
- **`mkdir -p`.** The quoting makes the directory one shell word, whatever it is
  called. It is the operand of `mkdir` if and only if it does not look like an
  option to it (`ShellQuote.MkdirGetsItsDirectory`): `-v` is an accepted path, and
  `mkdir -p '-v'` has no operand (`ShellQuote.DashIsAnOption`).

## Model

| member | source | states |
|---|---|---|
| `SyncWire.SendSpecRoundTrip` | internal/adbwire/sync.go:367-400 | a daemon that splits the SEND payload at its last comma gets back exactly the path, commas included, and the mode |
| `SyncWire.TransferRoundTrip` | internal/adbwire/sync.go:400-443 | DATA frames and the DONE after them are read back as the same chunks and time, whatever follows |
| `SyncWire.RequestRoundTrip` | internal/adbwire/sync.go:858-871 | every well-formed request is read back as itself and leaves the rest of the stream untouched |
| `SyncWire.ReplyUnambiguous` | internal/adbwire/sync.go:907-975 | two replies of one kind that agree on a stream are equal and end at the same byte |
| `SyncWire.AlignmentUnique` | internal/adbwire/sync.go:785-820 | the reply boundary of a session is the only one its stream allows: two readings as replies to the same requests agree on every reply and on the cursor |
| `SyncWire.DaemonReadsTheLog` | internal/adbwire/sync.go:858-893 | all the bytes an aligned session sent decode, in order, to exactly the requests of its log |
| `SyncVerdict.OkayAccepted` | internal/adbwire/sync.go:919-942 | a stream that starts with an OKAY ends a push well, whatever follows |
| `SyncVerdict.LstatAccepted` | internal/adbwire/sync.go:553-604 | a stream that starts with a whole STAT reply ends a stat well |
| `SyncVerdict.FileAccepted` | internal/adbwire/sync.go:457-540 | any DATA frames within the limit and their DONE end a pull well |
| `SyncVerdict.ListingAccepted` | internal/adbwire/sync_list.go:83-182 | any dents within the limit and their 20-byte DONE end a listing well, and no dent at all is the not-exist answer |
| `SyncSession.SyncConn.Begin` | internal/adbwire/sync.go:785-807 | a request is admitted exactly when the session is neither closed, broken nor busy, and claims it |
| `SyncSession.SyncConn.Write` | internal/adbwire/sync.go:873-893 | success means every byte went out; a failure leaves a prefix and a broken session |
| `SyncSession.SyncConn.SendChunks` | internal/adbwire/sync.go:400-443 | however the source fragments, what is sent is DATA frames of 1 to 65536 bytes whose concatenation is what the source yielded |
| `SyncSession.SyncConn.ReadOutcome` | internal/adbwire/sync.go:919-942 | an OKAY is consumed whole; anything else breaks the session |
| `SyncSession.SyncConn.Push` | internal/adbwire/sync.go:367-443 | on success the log gained a SEND of that path, mode and source content with its OKAY; a usage refusal happens exactly for a bad or over-long path or an unusable session and touches nothing; every other failure breaks the session; with a writer that does not fail the outcome is exactly the source's, then the daemon's |
| `SyncSession.PushArrives` | internal/adbwire/sync.go:367-443 | the bytes of a successful push decode at the daemon to exactly the path, mode and concatenated source |
| `SyncSession.SyncConn.Pull` | internal/adbwire/sync.go:457-540 | on success the sink gained exactly the DATA payloads up to DONE; after any failure it holds a prefix of the payloads in the stream; with a writer and sink that do not fail the outcome is exactly the one the stream dictates |
| `SyncSession.SyncConn.Stat` | internal/adbwire/sync.go:553-604 | what is reported is read off the 16 bytes at the cursor: the words after the id are mode, size and time, a zero mode is no such path, a zero time is none, a regular file's size is marked as possibly cut, and the name is the path's base; anything else breaks the session; the outcome is the one the stream dictates |
| `SyncSession.SyncConn.List` | internal/adbwire/sync_list.go:83-182 | on success the entries, sorted by name, are one for each DENT other than dot and dot-dot, each with its DENT's mode, size, time and name and a path that is the directory, one slash and that name; an empty listing is the not-exist answer, enters the log and keeps the session usable; the outcome is the one the stream dictates |
| `SyncSession.SyncConn.Close` | internal/adbwire/sync.go:325-352 | claims the session and sends QUIT only when no request is in flight; idempotent |
| `SyncSession.SortByName` | internal/adbwire/sync_list.go:83-182 | a permutation of its input, ascending by name in Go's string order |
| `SyncSession.WireTells` | internal/adbwire/sync.go:242-255 | size, mode and time stand where their words say, exists is a non-zero mode, the time is known exactly when the path exists and its word is not zero, and the size may be cut exactly for an existing regular file |
| `SyncSession.EntriesTell` | internal/adbwire/sync_list.go:111-146 | the entries of a listing, in order, are those of its DENTs other than dot and dot-dot |
| `SyncSession.LexOrder` | internal/adbwire/sync_list.go:155-158 | names are ordered by the first byte that differs, a prefix first |
| `SyncSession.BaseNames` | internal/adbwire/sync.go:603-603 | the base of nothing is a dot, of the root a slash, and a trailing slash does not count |
| `SyncSession.PathAccepted` | internal/adbwire/sync.go:1010-1023 | a path is accepted exactly when it is 1 to 1024 bytes without NUL |
| `SyncVerdict.AbsentReasonMeans` | internal/adbwire/sync_list.go:202-206 | a refusal says there is no such directory exactly when, lower-cased, it contains one of the two phrases |
| `SyncVerdict.AbsentAnywhere` | internal/adbwire/sync_list.go:202-206 | such a phrase, in any case, says so wherever it stands in the text |
| `SyncSession.StatNamesAsListed` | internal/adbwire/sync_list.go:210-215 | a stat of a listed entry's path gives the name the listing gave |
| `SyncSession.RunHistory` | internal/adbwire/sync.go:367-604 | after any history of calls, any peer, fragmentation, source and sink, and a Close by another goroutine at any point, a session that is not broken, closed or not, has consumed exactly the replies of its log and sent exactly what a daemon reads as its requests, with nothing after them but the QUIT of a Close |
| `SyncExclusion.InvStep` | internal/adbwire/sync.go:785-820 | every step of every goroutine keeps the flags, the single writer and the shape of the wire |
| `SyncExclusion.WriterExclusion` | internal/adbwire/sync.go:325-352 | in every interleaving at most one call writes, no call's bytes are split by another's, nothing follows QUIT, at most one QUIT is written, and no request begins after a Close has claimed the session |
| `FileModes.OfPosixInverts` | internal/adbwire/sync.go:134-185 | reading back a mode's POSIX word gives the mode exactly when it has permissions, special bits and at most one of directory and symlink |
| `FileModes.PosixModeInverts` | internal/adbwire/sync.go:134-185 | writing back the mode read from a word gives the word exactly when it is a 16-bit word of a regular file, a directory or a symlink |
| `WireBytes.PathRequests` | internal/adbwire/sync.go:858-871 | STAT, RECV, LIST and QUIT byte by byte |
| `WireBytes.SendRequest` | internal/adbwire/sync.go:367-443 | a SEND of one file byte by byte: path, comma, decimal mode, DATA, DONE with its time |
| `WireBytes.Replies` | internal/adbwire/sync.go:905-942 | the replies byte by byte, with the order of their words |
| `WireBytes.SyncLimits` | internal/adbwire/sync.go:70-76 | chunks of at most 65536 bytes, paths of at most 1024 |
| `WireBytes.SentModes` | internal/adbwire/sync.go:134-157 | the words of regular, directory, symlink, setuid, setgid and sticky modes |
| `WireBytes.ReadModes` | internal/adbwire/sync.go:159-185 | what those words read as, and that only the first is a regular file |
| `WireBytes.ReadSpecialModes` | internal/adbwire/sync.go:159-185 | character and block devices, pipes and sockets, none of them regular |
| `WireBytes.ReadModeBits` | internal/adbwire/sync.go:159-185 | setuid, setgid and sticky words |
| `WireBytes.ShellPackets` | internal/adbwire/device.go:407-484 | stdout is id 1, stderr 2, exit 3, with a little-endian length, and the packet cap is 1 MiB |
| `WireBytes.HostFrames` | internal/adbwire/conn.go:285-313 | a frame and its prefix byte by byte, read in either case |
| `HostFraming.PutHex4` | internal/adbwire/conn.go:285-291 | fills the first four bytes with the value's hex digits and touches no other |
| `HostFraming.ParseHex4` | internal/adbwire/conn.go:293-313 | the value of four hex digits of either case, and a refusal for anything else |
| `HostFraming.PrefixValueIff` | internal/adbwire/conn.go:285-313 | a prefix reads as n exactly when, lower-cased, it is n's own prefix |
| `HostFraming.ParseInvertsPut` | internal/adbwire/conn.go:285-313 | parsing inverts writing on 0..65535 |
| `HostFraming.FramesRoundTrip` | internal/adbwire/conn.go:177-195 | framed messages are read back one by one, first to last, whatever follows |
| `HostFraming.FramesInjective` | internal/adbwire/conn.go:177-195 | two sequences of messages never look alike on the wire |
| `HostFraming.WriteMessage` | internal/adbwire/conn.go:177-195 | too long a payload is refused before a byte is written; success means exactly the frame, failure a prefix of it, and a writer that takes it all succeeds |
| `HostFraming.ReadMessage` | internal/adbwire/conn.go:251-271 | for any fragmentation, returns the whole message at the front of the stream, or fails if there is none |
| `HostFraming.ReadSession` | internal/adbwire/client.go:955-969 | reading to failure yields every whole message of the stream, in order, and no other |
| `ShellV2.PacketsRoundTrip` | internal/adbwire/device.go:471-484 | packets within the cap decode back to themselves with nothing left over |
| `ShellV2.StreamDecomposes` | internal/adbwire/device.go:447-467 | any stream is the encoding of its whole packets and a tail that does not start with one |
| `ShellV2.Next` | internal/adbwire/device.go:447-467 | for any fragmentation, returns a packet exactly when a whole one is at the front, and a bare end exactly at a packet boundary or after one orphan header |
| `ShellV2.Drain` | internal/adbwire/device.go:506-548 | stdout and stderr are the projections of the first limit bytes of the interleaved output, the exit code is the last non-empty exit frame's, and the error is nil exactly when the peer hung up after whole packets and at most one orphan header |
| `ShellV2.DrainSeparates` | internal/adbwire/device.go:522-538 | stdout is a prefix of all that packets of id 1 carried and stderr of all that packets of id 2 did, together as much as the cap allows |
| `ShellV2.Cap` | internal/adbwire/device.go:507-509 | a positive limit is kept, any other means 8 MiB |
| `ShellV2.TruncationMeansLoss` | internal/adbwire/device.go:522-535 | not truncated means nothing was lost; truncated means loss if and only if the output is not exactly the cap followed by an empty output packet, which never happens when no output packet is empty |
| `ShellV2.EmptyPacketReportsLoss` | internal/adbwire/device.go:522-526 | the converse fails for an empty packet at the cap |
| `ShellV2.OrphanHeaderIsSilent` | internal/adbwire/device.go:463-466 | a stream that is one header and nothing more has no packet and still ends as a whole one does |
| `DeviceListing.ValidateDevpath` | internal/adbwire/device.go:357-379 | accepts exactly what the listing parser records as a devpath |
| `DeviceListing.VocabularyParsesToItself` | internal/adbwire/device.go:58-83 | each of the fourteen states parses to itself |
| `DeviceListing.ParseConnStateIdempotent` | internal/adbwire/device.go:58-83 | parsing a parsed state changes nothing |
| `ConnStates.PermissionText` | internal/adbwire/device.go:69-73 | any text that contains the word permission is the udev problem, whatever surrounds it |
| `ConnStates.PrefixText` | internal/adbwire/device.go:74-79 | a text that begins with unauthorized, authorizing or connecting, and speaks of no permission, is that state |
| `ConnStates.OtherText` | internal/adbwire/device.go:80-82 | any other text is unknown |
| `ConnStates.DevpathGrows` | internal/adbwire/device.go:350-359 | a devpath, character by character: which may come first, which may follow, and how many |
| `ConnStates.KeyGrows` | internal/adbwire/device.go:218-220 | an unmodelled key, character by character |
| `DeviceListing.WalkTail` | internal/adbwire/device.go:282-329 | the backward walk stops where the longest run of tail tokens begins, and of each kind of field keeps the leftmost |
| `DeviceListing.ParseDeviceLine` | internal/adbwire/device.go:252-333 | the device read is the one the line means, and a line is refused exactly when it has nothing after its serial column |
| `DeviceListing.ParseDeviceList` | internal/adbwire/device.go:229-250 | the devices are those of the lines that have one, in order, blank lines and announcements skipped |
| `DeviceListing.TokensPartitioned` | internal/adbwire/device.go:252-333 | serial column, state words and tail are exactly the line's tokens, and the tail is as long as it can be |
| `DeviceListing.RecordedDevpathValid` | internal/adbwire/device.go:289-297 | a recorded devpath always passes validation |
| `DeviceListing.LineRoundTrip` | internal/adbwire/device.go:252-333 | a line printed with any spacing from a serial or the sentinel, state words, a devpath and distinct known and unmodelled keys in any order parses back to exactly those fields |
| `DeviceListing.StateKeptIff` | internal/adbwire/device.go:282-333 | the state comes back exactly when its last word is not a tail token |
| `DeviceListing.SerialKeptIff` | internal/adbwire/device.go:258-273 | the serial comes back exactly when the line does not open with the sentinel |
| `DeviceListing.SentinelCollision` | internal/adbwire/device.go:258-273 | a line printed from the serial "(no" that is a device, whose every reading has lost the serial |
| `DeviceListing.StateSwallowed` | internal/adbwire/device.go:282-333 | a line whose state ends in what reads as a key: it is a device, and no reading keeps the state |
| `DeviceListing.LineHasDevice` | internal/adbwire/device.go:252-333 | every line with something after its serial column has a reading |
| `DeviceListing.ListingRoundTrip` | internal/adbwire/device.go:229-250 | a whole listing of printed lines, with margins and carriage returns or without, is read back as exactly the devices it was printed from, in order, less those whose serial starts with an asterisk |
| `DeviceListing.ListedWholeIff` | internal/adbwire/device.go:229-250 | no device is left out if and only if no serial starts with an asterisk |
| `DeviceListing.StarredIsDropped` | internal/adbwire/device.go:229-250 | a line that reads as a device and is dropped from every listing |
| `DeviceListing.ReadsOnce` | internal/adbwire/device.go:252-333 | what a line means determines every field of the device |
| `DeviceListing.LinesBack` | internal/adbwire/device.go:229-250 | a listing splits back into the lines it was joined from |
| `Addressing.ServiceUnambiguous` | internal/adbwire/client.go:314-326 | under one prefix, equal service strings for valid devpaths have equal devpath and command |
| `Addressing.ColonsWouldCollide` | internal/adbwire/device.go:339-350 | with a colon allowed in a devpath one string would be two requests |
| `Addressing.AdmissionFrame` | internal/adbwire/client.go:271-289 | a frame is rendered exactly for a one-word class and an empty or valid devpath |
| `Addressing.ClassGrows` | internal/adbwire/client.go:273-275 | a class, character by character: which six characters it may not have |
| `Addressing.AddressTexts` | internal/adbwire/client.go:254-289 | the service string and the admission frame as they are written |
| `Addressing.FrameRoundTrip` | internal/adbwire/client.go:271-289 | every admission frame determines its class, its devpath and its token, signs included |
| `Tracker.Tracker.Emit` | internal/adbwire/client.go:971-997 | against any consumer, in at most two rounds and four moments, the snapshot is in the slot or already consumed unless the context, whose end is fixed in advance, has ended by then; a consumer that never receives is delivered nothing |
| `Tracker.Tracker.Session` | internal/adbwire/client.go:937-969 | for any stream and fragmentation, a connection emits exactly the whole messages of its stream, or a prefix of them if the context ends, which it does at a moment fixed in advance; losing it emits nothing |
| `Tracker.Tracker.Run` | internal/adbwire/client.go:896-931 | over any number of connections, delivered sequence numbers strictly increase and every snapshot is that of a message read; each message is delivered, dropped for a newer one, waiting, or given up at cancellation, and only one of these |
| `Tracker.ReceiveKeeps` | internal/adbwire/client.go:878-878 | a receive at any moment loses no snapshot and keeps the order and the newest |
| `ShellQuote.QuoteRoundTrip` | internal/adbwire/sync.go:742-744 | a POSIX shell reads the quoting of a text as that one word exactly when the text has no NUL |
| `ShellQuote.MkdirWords` | internal/adbwire/sync.go:681-687 | whatever NUL-free name the directory has, the shell reads the command as `mkdir`, `-p` and that name |
| `ShellQuote.MkdirGetsItsDirectory` | internal/adbwire/sync.go:681-687 | `mkdir` is left with the directory as its one operand if and only if the directory is not a dash followed by something |
| `ShellQuote.DashIsAnOption` | internal/adbwire/sync.go:1010-1023 | `-v` is an accepted path for which `mkdir` is left with no operand |
| `BlobSweep.FreshUploadSurvives` | internal/api/artifacts_blob.go:467-592 | in any history of sweeps and uploads, a blob whose row arrives within the grace period of its last write and stays is never removed |
| `BlobSweep.Enumerate` | internal/api/artifacts_blob.go:605-652 | finds each file once and as it is on disk, only entries that are regular files filed as `<xx>/<sha256>` in a readable fan-out directory, and every such entry that was on disk at the start; all others are counted |
| `BlobSweep.FiledAsBlob` | internal/api/artifacts_blob.go:605-665 | an entry counts as a blob exactly when it is a regular file named by 64 hex digits in a readable directory named by the first two |
| `BlobSweep.HexGrows` | internal/api/artifacts_blob.go:654-665 | hex digits, character by character |
| `BlobSweep.NamedDigests` | internal/api/artifacts_blob.go:675-706 | batches answer for each digest whether it was named at some instant during the query, or fail as a whole |
| `BlobSweep.SecondLook` | internal/api/artifacts_blob.go:538-578 | a blob is unlinked only when it was unnamed at its second look |
| `BlobSweep.TallyBalanced` | internal/api/artifacts_blob.go:525-584 | every verdict keeps the report's counters in balance and the list at its cap |
| `BlobSweep.SplitByAge` | internal/api/artifacts_blob.go:494-506 | the candidates are those files, and only those, that are past the grace period |
| `BlobSweep.ReportLostRaces` | internal/api/artifacts_blob.go:713-736 | when the final check succeeds, every removed digest named at it is reported |
| `BlobSweep.Sweep` | internal/api/artifacts_blob.go:467-592 | every removed blob was past its grace and unnamed at its second look, and was unlinked before the final check; every removed digest is reported exactly when that later check saw it named, and the check is made unless a query fails; Scanned = WithinGrace + Referenced + Adopted + Collectable + failed rechecks unless stopped early, which takes a caller that hangs up before the last candidate; what was unlinked is exactly the removed list and nothing else left the disk, so a dry run removes nothing; Deleted is at most Collectable and the listing is capped at 500; when not stopped early every listed file that was on disk past its grace at the start was removed, was seen named during the sweep, or has a problem that says why; when no unlink fails all that is collectable is deleted; and the columns of `BlobSweep.BookDecided` stand behind its counters, in a dry run too |
| `BlobSweep.Scan` | internal/api/artifacts_blob.go:473-523 | a candidate counts as referenced only if it was seen named, and as unneeded only if at one instant it was on disk, past its grace and unnamed; every due file is a candidate |
| `BlobSweep.DueSettled` | internal/api/artifacts_blob.go:525-584 | dry or not, a sweep not stopped early settles every listed file due at its start: seen named, counted and listed as collectable, or, when applying, noted as not asked about again |
| `BlobSweep.BookDecided` | internal/api/artifacts_blob.go:525-584 | every decided file is in exactly one of the columns the counters count; Blobs is the first 500 collectable files as they are, deleted exactly if removed; ReclaimableBytes and FreedBytes are the sizes of the collectable and of the removed |
| `BlobSweep.SweepRepeatedly` | internal/api/artifacts_blob.go:422-435 | over any number of sweeps interleaved with any uploads, each sweep's promises hold and still hold at the end, what was unlinked is exactly what the sweeps list as removed, and every removal in the whole history was of a file past its grace and unnamed at its second look |
| `Quarantine.TakeKeepsInv` | internal/api/quarantine.go:106-136 | every open, row-close, release, abort, and every commit that was not raced keeps the coverage invariant |
| `Quarantine.CoverageOverRuns` | internal/api/ops.go:1601-1702 | over every race-free interleaving: quarantined only under an open row, never enabled under one, the same for health, and no two open rows for one subject |
| `Quarantine.CoverageIffRaceFree` | internal/api/ops.go:1601-1702 | the coverage invariant holds after every step of a run if and only if no commit of the run is raced |
| `Quarantine.NeverStranded` | internal/api/ops.go:1585-1600 | after every step of every run, raced commits included, a device quarantined in either column is covered by an open row, and no two open rows share a scope and subject |
| `Quarantine.InvMeansNoneStranded` | internal/api/ops.go:1585-1600 | every state of the coverage invariant is one from which that holds |
| `Quarantine.CommitExact` | internal/api/ops.go:1668-1708 | a commit keeps the invariant if and only if no device it frees has come under another open row |
| `Quarantine.CloseWindowExact` | internal/api/ops.go:1668-1708 | opens inside a close's window break the invariant if and only if one takes back a released device |
| `Quarantine.RaceStrandsCoverage` | internal/api/ops.go:1601-1612 | an interleaving that leaves a device enabled under an open row |
| `Quarantine.OtherStatesUntouched` | internal/api/quarantine.go:106-136 | no interleaving, raced or not, ever changes a disabled, parked or retired admin state |
| `Quarantine.CloseIsClosed` | internal/api/ops.go:1668-1702 | a close frees exactly the devices nothing left open covers |
| `Quarantine.CloseAllIsClosed` | internal/api/ops.go:1668-1702 | closing rows one after another reaches the state that depends only on which rows were closed |
| `Quarantine.CloseOrderIrrelevant` | internal/api/ops.go:1601-1612 | closing a set of rows in any order reaches the same admin state and health on every device |
| `Quarantine.OpenThenClose` | internal/api/quarantine.go:201-206 | opening a row and closing it restores admin state on every device; health becomes unknown exactly where the row covers a device nothing else covered and that was not already held out, and is otherwise unchanged |
| `QuarantineScopes.OpenDevice` | internal/api/quarantine.go:106-128 | an open at a device is refused exactly when a row of that scope and subject is open, and otherwise takes out exactly the devices it names, enabled ones becoming quarantined and health quarantined unless already held out |
| `QuarantineScopes.CloseDevice` | internal/api/ops.go:1668-1702 | closing such a row hands back exactly those of its devices no other row covers and changes no other |
| `QuarantineScopes.OpenSlot` | internal/api/quarantine.go:106-128 | an open at a slot is refused exactly when a row of that scope and subject is open, and otherwise takes out exactly the devices in that slot, enabled ones becoming quarantined and health quarantined unless already held out |
| `QuarantineScopes.CloseSlot` | internal/api/ops.go:1668-1702 | closing such a row hands back exactly those of its devices no other row covers and changes no other |
| `QuarantineScopes.OpenHub` | internal/api/quarantine.go:106-128 | an open at a hub is refused exactly when a row of that scope and subject is open, and otherwise takes out exactly the devices on that hub, enabled ones becoming quarantined and health quarantined unless already held out |
| `QuarantineScopes.CloseHub` | internal/api/ops.go:1668-1702 | closing such a row hands back exactly those of its devices no other row covers and changes no other |
| `QuarantineScopes.OpenHost` | internal/api/quarantine.go:106-128 | an open at a host is refused exactly when a row of that scope and subject is open, and otherwise takes out exactly the devices on that host, enabled ones becoming quarantined and health quarantined unless already held out |
| `QuarantineScopes.CloseHost` | internal/api/ops.go:1668-1702 | closing such a row hands back exactly those of its devices no other row covers and changes no other |
| `QuarantineScopes.OpenPowerDomain` | internal/api/quarantine.go:106-128 | an open at a power domain is refused exactly when a row of that scope and subject is open, and otherwise takes out exactly the devices in that domain, enabled ones becoming quarantined and health quarantined unless already held out |
| `QuarantineScopes.ClosePowerDomain` | internal/api/ops.go:1668-1702 | closing such a row hands back exactly those of its devices no other row covers and changes no other |
| `QuarantineScopes.CoveredMeans` | internal/api/ops.go:1683-1690 | covered means, on the columns alone, named itself or sitting at a slot, hub, host or power domain that an open row of that scope names |
| `QuarantineTables.Tables.OpenRow` | internal/api/quarantine.go:139-230 | a duplicate is refused with nothing changed; otherwise row, health and admin state are those of the atomic open, and the invariant holds |
| `QuarantineTables.Tables.CloseRow` | internal/api/ops.go:1601-1708 | with opens committing between its statements, a close reports how many it freed, reaches the committed state, and keeps the invariant if and only if no later open takes back a freed device |
| `BulkRun.MaxPerHub` | internal/api/ops.go:1817-1823 | the cap asked for is kept from 1 to 32, more is 32, and none is 4 |
| `BulkRun.InvStep` | internal/api/ops.go:2086-2152 | every step keeps the semaphores equal to their holders, the wait groups to their live workers, and the rows to their goroutines |
| `BulkRun.SchedulerSafe` | internal/api/ops.go:2086-2248 | in every interleaving at most max_per_hub targets hold a hub and 64 the farm, each executes at most once, finish comes after the last worker; with bookkeeping intact done means every target ended ok or error and cancelled leaves none pending or running; a row is ok exactly of a command that exited zero; only a cancelled run with targets ends cancelled or has a target skipped, and any other ends done |
| `BulkRun.CancelledEndsCancelled` | internal/api/ops.go:2148-2150 | with bookkeeping intact, a run cancelled before its last worker is gone ends cancelled |
| `BulkRun.CancelStopsSpawning` | internal/api/ops.go:2113-2122 | once cancelled, a hub spawns at most the one target it had already been cleared for |
| `BulkRun.Progress` | internal/api/ops.go:2104-2150 | until the run is over some step other than a cancellation is enabled |
| `BulkRun.RunsEnd` | internal/api/ops.go:2104-2150 | no run goes on for ever: each step lowers a measure, and a run stops only when it is over |
| `EventQuery.PageSize` | internal/api/events_scope.go:256-265 | a page size from 1 to 2000 is kept, a larger one is 2000, none is 200 |
| `EventQuery.BuildQuery` | internal/api/events_scope.go:296-416 | for every scope each half selects exactly the rows the scope asks for, the placeholders are exactly 1..len(args) with each one read, and the audit half is there exactly for an unconfined caller |
| `EventQuery.AddEventSubject` | internal/api/events_scope.go:334-348 | the subject's events condition selects exactly the events about it, and binds an argument only where it is read |
| `EventSubjects.DeviceSubject` | internal/api/events_scope.go:429-460 | device:id selects exactly the events whose device is the trimmed id or the device behind that uid, and the audit rows whose subject is device, colon and trimmed id |
| `EventSubjects.LeaseSubject` | internal/api/events_scope.go:429-460 | the same for lease:id and the lease column |
| `EventSubjects.JobSubject` | internal/api/events_scope.go:429-460 | the same for job:id and the job column |
| `EventSubjects.SlotSubject` | internal/api/events_scope.go:429-460 | the same for slot:id and the slot column |
| `EventSubjects.HostSubject` | internal/api/events_scope.go:436-437 | host:id selects no event and the audit rows of that host |
| `EventSubjects.BareSubject` | internal/api/events_scope.go:438-445 | a subject without a known word before its first colon is tried whole against the four columns, the uids, and the audit subjects and their second parts |
| `EventSubjects.NoSubject` | internal/api/events_scope.go:296-334 | without a subject only kind, window and tenant select |
| `EventSubjects.SecondPartOf` | internal/api/events_scope.go:366-371 | the second part is what stands between the first colon and the next |
| `EventQuery.SubjectNormalised` | internal/api/events_scope.go:462-476 | normalising a subject is idempotent, so the rebuilt subject asks for what the raw one did |
| `EventQuery.AnswerIsNewestWanted` | internal/api/events_scope.go:386-416 | for every pair of tables, limiting each half, merging and limiting again is a newest page of the filtered union, with the timestamps of any such page |
| `EventQuery.AnswerExists` | internal/api/events_scope.go:386-416 | the statement always has an answer |
| `EventQuery.TenantSeesOwnRows` | internal/api/events_scope.go:374-385 | a tenant's page holds only events whose job or lease is that tenant's |
| `Newest.MergeHalves` | internal/api/events_scope.go:386-416 | the newest n of two newest-n halves is a newest n of both tables, ties broken any way |
| `Newest.SameTimestamps` | internal/api/events_scope.go:386-416 | any two newest-n answers have the same timestamps position by position |
| `StreamTickets.Store.Sweep` | internal/api/stream_ticket.go:242-255 | what is left is exactly the unexpired tickets, and the count is the subject's share of them |
| `StreamTickets.Store.Mint` | internal/api/stream_ticket.go:203-230 | granted exactly when fewer than 4096 tickets are live and fewer than 64 of the caller's; both quotas hold afterwards |
| `StreamTickets.Store.Redeem` | internal/api/stream_ticket.go:263-313 | answers exactly as the log of mints and presentations does; a proper presentation removes the ticket whatever the outcome, an improper one touches nothing |
| `StreamTickets.Authenticate` | internal/api/auth.go:382-397 | a request the authenticator accepts or faults on never touches the store |
| `StreamTickets.Run` | internal/api/stream_ticket.go:203-313 | over every run the swept, quota-bound map replies as the plain log does, call by call |
| `StreamTickets.RunsAreHonestAndFresh` | internal/api/stream_ticket.go:203-313 | with distinct draws every run leaves a log to which the three properties below apply |
| `StreamTickets.RedeemedAsMinted` | internal/api/stream_ticket.go:263-313 | a redemption is by GET on the stream path, strictly before expiry, and yields the minted identity with only its method extended |
| `StreamTickets.SingleUse` | internal/api/stream_ticket.go:263-313 | each ticket is redeemed at most once |
| `StreamTickets.SpentOnSight` | internal/api/stream_ticket.go:292-300 | once presented, even too late, a ticket is never honoured |
| `StreamTickets.ThirtySeconds` | internal/api/stream_ticket.go:114-114 | a ticket is good for thirty seconds, and not at the end of the last |
| `StreamTickets.QuotaNumbers` | internal/api/stream_ticket.go:125-139 | at most 4096 tickets, at most 64 of one subject's |
| `StreamTickets.StreamRoute` | internal/api/stream_ticket.go:263-285 | a ticket is looked at only on GET of /api/v1/stream |
| `LogBudget.Budget.Spend` | internal/api/jobsteps.go:149-156 | charges the shared pot or drops the field whole and counts it |
| `LogBudget.Budget.SpendError` | internal/api/jobsteps.go:162-168 | the reserve first, then the shared pot |
| `LogBudget.Render` | internal/api/jobsteps.go:351-399 | for any rows: errors, output and detail total at most 2 MiB, output and detail at most three quarters of it, and omitted is the number of flags |
| `LogBudget.BytesConserved` | internal/api/jobsteps.go:125-168 | the pots and the rendered bytes always add up to the budget, and output and detail never reach the reserve |
| `LogBudget.AllErrorsKept` | internal/api/jobsteps.go:108-118 | if the errors together fit the reserve none is omitted, whatever output surrounds them |
| `LogBudget.ErrorKept` | internal/api/jobsteps.go:108-118 | the same for each error, counting only those up to it |
| `LogBudget.FieldsWhole` | internal/api/jobsteps.go:366-396 | each field is rendered whole or is empty and flagged |
| `LogBudget.DroppedForRoom` | internal/api/jobsteps.go:149-168 | nothing is dropped while rendering it would stay within three quarters of the budget |

## Left out

- Lease acquire, renew, release, reclaim and reaping: their bodies are SQL functions the Go handlers only forward to.
- HTTP plumbing, request validation, JSON bodies, status codes, metrics, audit and event writes: thin wrappers.
- TLS, dialling, deadlines and error classification in adbwire: a context that may end at any moment and a failure at any byte stand for them.
- `readStatus`, `readFailReason` and the trimming and wording of refusals: only whether a reason names a missing file is kept.
- `Transport.Service`, `Backoff.delay` and its jitter: straight-line checks and floating point that only shape a wait.
- The lazy allocation of the staging buffer: a fixed buffer from the start.
- SyncSession.SyncConn.Push: the context ends after a given number of chunks, and a source that answers `(0, nil)` for ever is ended by it; the modification time is a parameter, and nil readers and writers are not modelled.
- SyncExclusion.WriterExclusion: a write is a run of single-byte steps; the bytes themselves are those of the session model.
- BlobSweep.Sweep: at most one sweep at a time (the code's try-lock), only sweeps unlink, an upload commits its bytes before its row and adopting an orphan keeps its modification time; `ScannedBytes` and log text are not modelled.
- Quarantine.CoverageOverRuns: an open is one atomic step, the topology does not change, and the watchdog's own health writes are not modelled.
- BulkRun.SchedulerSafe: a hub's targets may start in any order, a superset of the source's; command output and its truncation are not modelled.
- EventQuery.BuildQuery: SQL text, projections and redaction are not modelled; conditions are an abstract syntax with an evaluator over rows, and a lookback is a whole number of microseconds.
- StreamTickets.Store.Mint: digests are assumed injective, draws non-empty and distinct, and the clock never runs backwards; a nil store is modelled in `StreamTickets.Authenticate` only.
- Tracker.Tracker.Run: the sequence number is unbounded where the source's is 64 bits; a connection is its stream after the server's OKAY, and a failed dial is one whose stream is empty.
- DeviceListing.ParseConnState: lower-casing maps what can become an ASCII letter and leaves other characters alone, which no comparison can tell apart.
- Slot power cycling, recovery classification, screen streaming, job submission, parking, capabilities, the dashboard, `cmd/farmd` and migrations: outside these components.
