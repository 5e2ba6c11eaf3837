# Verified model of the PVFS2/SALB server core

This project models, in Dafny, the parts of a parallel file system server that are hard to get right, and proves what they keep. One module stands for one component. The system is PVFS2 with the SALB extension for load balancing by live migration of datafiles.

- **Migration** is a system of interleaved steps: the server that gives a datafile away, the one that receives it, the metadata server and any number of client writes. The result is an exact condition for "no client write is ever lost", over every run. The condition is not met by the program as it stands: small I/O and truncate have no gate, an incoming migration overwrites the two variables the gate reads, and a setattr may take effect late. Each of these has a run that loses a write, from every state in which a migration can begin.
- **Wire, Encoder, Sizes, Messages, Protocol, SizeTable, SmallIo, Hints** are the little-endian message codec. Layouts are data, so one round trip, one size bound and one uniqueness theorem hold for every message. A message is written over a buffer with any earlier contents, because padding is skipped and not cleared. Encoding and decoding on arrays refine the functions on values. The table of largest sizes is filled by encoding one message of every operation, and no message within its limit exceeds it.
- **Path, Lookup, LookupReply** are path lookup: the segment cursor that cuts the path in place, the state machine with its two permission paths, and the size of every answer it can give. The machine refines a recursive walk that is proved to be the longest one.
- **Placement, Create** are file creation: the partition and the two scatter loops, and the machine with its way back. Every handle a run acquires has exactly one fate, computed from the failing state.
- **Scheduler, Directory, Scheduling** are the queue that decides which requests run together on a handle, and a server whose requests (mkdir, crdirent, rmdirent, chdirent, mgmt-remove-dirent) interleave job by job over a key/value store. A request that has to wait arrives in the directory model when it is let in.
- **IoMachine, ListAttr, BatchRemove** are the I/O request, the parallel attribute fan-out and gather, and batch removal.

State that the program updates in place is a class or an array here, and its methods are proved against functions on values. What the jobs of the lower layers do is an input: each either has its documented effect or fails without one, so every pattern of failures is covered.

## What is false as written

Each of these has its exact condition as a theorem.

- A migration can lose a client write (`Migration.NoWriteLostIff`).
- A lookup is never resumed if its path has more than 40 segments, or if it comes to a directory whose mode bits refuse and whose access list is not read at once (`Lookup.LookupPath`, `Lookup.StrandedIff`).
- A lookup stops the server if the attributes of its base cannot be read, because the response then says it has 2^32 - 1 attributes, or if it comes to an object that is no directory, metafile or symlink (`Lookup.LookupPath`, `Lookup.ResponseSoundIff`).
- The guard against layouts that are too long moves the cursor by too little to trip the size check unless hints and attribute take more than 547 bytes (`Protocol.OversizeReportedIff`).
- An empty string read up to its terminator may give other characters (`Wire.StringReadBack`).
- A failed create may leave objects behind, by failing state (`Create.ResidueByState`, `Create.UndoneIff`).
- Listing attributes of a repeated handle loses a result (`ListAttr.ArrivesIff`).
- Batch removal reads a null request before the first removal, so it removes nothing and is answered only if the first prelude fails (`BatchRemove.AsWritten`). With a line added that names the request in the nested frame, it frees its own frame after each removal and goes on reading it, so what it removes, reports and releases still depends on the contents of freed memory (`BatchRemove.KeptIff`, `BatchRemove.FreedOnceIff`). The other results on batch removal are about the program with that line.
- The count of a directory's entries goes wrong when a rmdirent takes away an entry between a chdirent's read and write (`Directory.CountedIff`, `Directory.CountsStayIff`, `Directory.CountLost`).
- A crdirent can be answered with status 0 when its entry is gone or changed (`Directory.EntryStaysIff`, `Directory.AnsweredAfterRemoval`).
- A decoded list of hints is in reverse order (`Hints.ForwardedInOrder`, `Hints.OrderKeptIff`).

## Where code and comments disagree

The model follows the code.

- The comment on `PINT_string_count_segments` promises -1 for a path without segments; the code returns 0.
- The comment on `encode_string` says a NULL string is followed by a zero byte; the code writes the length only.
- The comment in `encode_PVFS_sys_layout` says a layout that is too long leads to an error; mostly it does not.
- `mkdir_prep_sm` reports attributes of another type as an error, which its transition table ignores.
- The comment on entry operations in `PINT_req_sched_post` lets them join only other entry operations; the code lets them join anything that is scheduled.
- The create machine has a way back for a failed attribute message to the remote datafiles; the nested machine that sends it clears its error, so the create goes on and reports success (`Create.MessageIgnored`).
- The old datafile is meant to be removed after a migration; an early return keeps it.

The path cursor is `PINT_string_count_segments` and `PINT_string_next_segment` in `src/common/misc/str-utils.c`, lines 38 to 49 and 139 to 172. The layout encoder is `encode_PVFS_sys_layout` in `src/common/misc/pint-util.c`, lines 433 to 466. The scheduler is `PINT_req_sched_post`, `PINT_req_sched_release` and `PINT_req_sched_test` in `src/server/request-scheduler/request-scheduler.c`, lines 309 to 531, 726 to 857 and 865 to 941. For these the table below names the declarations or callers.

Everything is checked by the Dafny verifier: `dafny verify dfyconfig.toml`.

## Model

| member | source | states |
|---|---|---|
| `Migration.ReplaceDatafileHandle` | src/server/set-attr.c:384-427 | The in-place loop leaves the array equal to `ReplaceFirst` of what it held. |
| `Migration.ReplaceFirstAt` | src/server/set-attr.c:384-427 | Exactly the first slot with the old handle changes, to the new one, in any array. |
| `Migration.ReplaceFirstAbsent` | src/server/set-attr.c:384-427 | Without the old handle nothing changes. |
| `Migration.UpdateRepeated` | src/server/set-attr.c:384-427 | A setattr that arrives a second time, after the exchange, changes nothing. |
| `Migration.FlowSendKeepsInv` | src/server/migrate-file-client.c:501-599 | Sending any number of bytes keeps "stored bytes and travelling bytes together are a prefix of the datafile", and with it the whole invariant. |
| `Migration.FlowStoreKeepsInv` | src/server/migrate-file-server.c:537-627 | Storing any number of travelling bytes keeps it too. |
| `Migration.PeerCreatesKeepsInv` | src/server/migrate-file-server.c:362-448 | Creating the new datafile keeps the invariant. |
| `Migration.PeerStepKeepsInv` | src/server/migrate-file-server.c:450-517 | Answering, storing all that was asked for, acknowledging and failing keep the invariant. |
| `Migration.WriteKeepsInv` | src/server/io.c:221-233 | A client write that passed the gate keeps the invariant: it changes neither the datafile being moved nor its copy. That the gate lets every other write through is `Migration.OthersGoOn`. |
| `Migration.SwitchKeepsInv` | src/server/migrate-file-client.c:745-815 | The exchange of the handle publishes a complete copy: every stripe still holds what clients wrote. |
| `Migration.StepKeepsInv` | src/server/migrate-file-client.c:149-319 | Every enabled step of source, peer, metadata server and clients keeps the invariant, including every failure. |
| `Migration.RunKeepsInv` | src/server/migrate-file-client.c:149-319 | Every run, of any length and interleaving, keeps the invariant. |
| `Migration.Safety` | src/server/migrate-file-client.c:359-402 | If no write on the selected datafile is past the gate at selection, and the surroundings are quiet, then in every state of every run up to and including the exchange each stripe holds what clients wrote, whichever step fails. |
| `Migration.CopyRun` | src/server/migrate-file-client.c:501-836 | The undisturbed migration is a run of the system and ends with a complete copy and the setattr sent. |
| `Migration.Completes` | src/server/migrate-file-client.c:501-836 | From every selected state a run ends with the metafile naming the new datafile in the place of the old one, with the same contents, and nothing else changed. |
| `Migration.OthersGoOn` | src/server/io.c:221-233 | The gate stops nothing else: from every selected state, in any surroundings, a new client's write on any other datafile passes and takes effect. |
| `Migration.MovedIsRefused` | src/server/io.c:221-233 | A new client's write on the datafile being moved is refused and changes nothing. |
| `Migration.GateClosedExactlyMeanwhile` | src/server/perf-update.c:436-468 | In every state of every run in quiet surroundings the gate is closed on the selected datafile, and on no other, until the source is idle; then it is open. |
| `Migration.GateReopens` | src/server/migrate-file-client.c:286-319 | From every state of such a run before the exchange the source can still finish, with its gate open and every client write kept. |
| `Migration.LostByWriterPastGate` | src/server/io.c:221-233 | A write already past the gate when the datafile is selected can be lost: a run that loses it. |
| `Migration.LostUngated` | src/server/small-io.c:67-86 | Small I/O has no gate, and neither has truncate: from every selected state a run loses such a change. |
| `Migration.LostByIncoming` | src/server/migrate-file-server.c:450-470 | Accepting an incoming migration overwrites the two globals and opens the gate: from every selected state a run loses a write. |
| `Migration.LostByLateUpdate` | src/server/migrate-file-client.c:341-357 | A setattr that takes effect after the source stopped waiting: from every selected state a run loses a write. |
| `Migration.NoWriteLostIff` | src/server/migrate-file-client.c:149-319 | The exact condition: no run loses a client's change if and only if there is no incoming migration, no change of data that does not pass the gate (small I/O, truncate) and no late setattr, and no write on the datafile was past the gate at selection. |
| `Wire.LittleEndianRoundTrip` | src/proto/endecode-funcs.h:29-63 | Reading back the bytes of a word of any width gives the word; which bytes these are is `Wire.LittleEndianAt`. |
| `Wire.FromLittleEndianRoundTrip` | src/proto/endecode-funcs.h:29-63 | Any bytes are the bytes of the number read from them. |
| `Wire.LittleEndianAt` | src/io/bmi/bmi-byteswap.h:98-105 | Byte order: the byte at position i has the weight 256 to the i, for every width and word. |
| `Wire.NumRoundTrip` | src/proto/endecode-funcs.h:29-63 | The same for signed words in two's complement; the bytes are those of `Wire.NumBytesAt`. |
| `Wire.NumBytesAt` | src/proto/endecode-funcs.h:29-63 | The byte at position i of a signed or unsigned word v is v divided by 256 to the i, rounded down, modulo 256. |
| `Wire.NumValueAt` | src/proto/endecode-funcs.h:29-63 | The number read from any bytes fits their width and has exactly those bytes. |
| `Wire.EncStrAt` | src/proto/endecode-funcs.h:103-119 | Byte by byte: four bytes of length, the characters, a zero unless the string is empty, and bytes nobody writes. |
| `Wire.EncKeyValAt` | src/proto/endecode-funcs.h:138-143 | The same for a key/value, which has no terminator. |
| `Wire.RoundTripLeaf` | src/proto/endecode-funcs.h:29-149 | Words, skips, strings, key/values and raw bytes decode to what was encoded and end where it ended. |
| `Wire.RoundTripDep` | src/proto/endecode-funcs.h:590-800 | The same for layouts whose head decides what follows: counted arrays, mask-driven parts, tagged unions, payloads. |
| `Wire.RoundTrip` | src/proto/endecode-funcs.h:590-800 | For every layout and value, in a buffer with any bytes in the padding, before and after: decoding returns the value and stops exactly where encoding stopped. |
| `Wire.RoundTripSeq` | src/proto/endecode-funcs.h:590-800 | The same for a list of fields. |
| `Wire.Unambiguous` | src/proto/endecode-funcs.h:590-834 | No two values of one layout share a buffer, even with different padding. |
| `Wire.StringReadBack` | src/proto/endecode-funcs.h:103-125 | Reading an encoded string up to its terminator gives it back if and only if it is not empty or the byte after its length was zero before. |
| `Encoder.Cursor.PutNum` | src/proto/endecode-funcs.h:29-63 | Writes the word at the cursor, low byte first - the byte at offset i is the word divided by 256 to the i, rounded down, modulo 256 - moves past it and changes nothing else. |
| `Encoder.Cursor.PutStr` | src/proto/endecode-funcs.h:103-119 | Writes the string's pattern: length, characters, terminator; padding, and the empty string's terminator, keep their old bytes. |
| `Encoder.Cursor.PutKeyVal` | src/proto/endecode-funcs.h:138-143 | The same for a key/value. |
| `Encoder.Cursor.PutField` | src/proto/endecode-funcs.h:590-834 | Writes exactly the pattern of one field of any layout. |
| `Encoder.Cursor.PutFields` | src/proto/endecode-funcs.h:590-800 | Writes exactly the pattern of a list of fields, in order. |
| `Encoder.TakeNum` | src/proto/endecode-funcs.h:33-63 | Reads, if there are enough bytes, the number that fits the width and has exactly the bytes at that place, low byte first, and stops behind them. |
| `Encoder.TakeBytes` | src/proto/endecode-funcs.h:121-149 | Reads a string or key/value by its length: the first four bytes are that length and the bytes after them are the ones returned. |
| `Encoder.TakeField` | src/proto/endecode-funcs.h:590-834 | Refines the decoder on values to one that walks the array. |
| `Encoder.TakeFields` | src/proto/endecode-funcs.h:590-800 | The same for a list of fields. |
| `Sizes.InitExact` | src/proto/PINT-le-bytefield.c:997-1019 | A value with empty arrays, short names and no optional part is encoded in exactly the size its layout says. |
| `Sizes.EncBound` | src/proto/pvfs2-req-proto.h:97-152 | No value within the limits on counts and text needs more room than its layout's initial size and slack. |
| `Messages.UnpackedPacked` | src/proto/pvfs2-req-proto.h:26-31 | The division-based split of the version number inverts its packing. |
| `Messages.HeaderMatches` | src/proto/PINT-reqproto-encode.c:63-66 | The first eight bytes of every message are the version, as 1000 times the major number plus the minor, and the encoding number 2. |
| `Messages.HeaderVerdict` | src/proto/PINT-reqproto-encode.c:174-225 | A receiver accepts a header if and only if the majors agree and the sender's minor is on the right side of its own. |
| `Messages.Interoperation` | src/proto/PINT-reqproto-encode.c:63-66 | Request and response are both accepted if and only if the majors are equal and the client's minor is at most the server's. |
| `Messages.RequestPositions` | src/proto/pvfs2-req-proto.h:1845-1855 | Where a request carries its operation, user and group: bytes 8, 16 and 20. |
| `Messages.ResponsePositions` | src/proto/pvfs2-req-proto.h:1899-1902 | Where a response carries its operation and status: bytes 8 and 12. |
| `Messages.RequestRoundTrip` | src/proto/PINT-le-bytefield.c:366-663 | Every well-formed request, whatever the buffer held before: decoded to the same request when the buffer ends with it, rejected with EPROTO when anything follows or when its operation cannot be decoded. |
| `Messages.ResponseRoundTrip` | src/proto/PINT-le-bytefield.c:466-754 | Every well-formed response is returned unchanged when the buffer ends with it; a failed one whatever follows; a successful one is rejected with EPROTO when anything follows. |
| `Messages.AttrPartTyped` | src/proto/pvfs2-attr.h:222-279 | Each part of an attribute is on the wire exactly when its mask test holds. |
| `Messages.StuffedPartByMask` | src/proto/pvfs2-attr.h:232-237 | The stuffed size is on the wire if and only if the object is a metafile and bit 0x1000 of the mask is clear. |
| `Messages.SinglePartsByMask` | src/proto/pvfs2-attr.h:238-247 | Distribution, datafiles, the pair of datafile handles, size and link target are there if and only if bits 0x400, 0x800, 0x1000, 0x8000 and 0x40000 are set, respectively. |
| `Messages.DirectoryPartByMask` | src/proto/pvfs2-attr.h:248-249 | The directory part is there if and only if bit 0x80000 or bit 0x100000 is set. |
| `Messages.MetafileCarriesOne` | src/proto/pvfs2-attr.h:222-279 | For a metafile exactly one of the stuffed size and the pair of new and old datafile handles is on the wire, and the shared mask bit says which. |
| `Protocol.EncodeRequest` | src/proto/PINT-le-bytefield.c:366-463 | Writes exactly the request's pattern over the buffer and returns its size; ENOMEM if and only if the size is over the limit, and else ENOSYS if and only if the operation has no encoding. |
| `Protocol.EncodeResponse` | src/proto/PINT-le-bytefield.c:466-570 | The same for a response; a failed one has no body. |
| `Protocol.CheckHeader` | src/proto/PINT-reqproto-encode.c:147-225 | Refines the header check to the bytes in the array: EPROTO if and only if there are fewer than eight, and any other refusal is EPROTONOSUPPORT. |
| `Protocol.DecodeRequest` | src/proto/PINT-le-bytefield.c:573-663 | Refines `DecodeReq`, including its error cases, to a walk over the array. |
| `Protocol.DecodeResponse` | src/proto/PINT-le-bytefield.c:666-754 | Refines `DecodeResp` likewise. |
| `Protocol.EncodeThenDecode` | src/proto/PINT-reqproto-encode.c:95-263 | What the encoder leaves in a buffer with any earlier contents decodes to the request, and to EPROTO once followed by anything. |
| `Protocol.EncodeThenDecodeResponse` | src/proto/PINT-reqproto-encode.c:95-263 | The same for a response; after a failed one anything may follow. |
| `SizeTable.ZeroTypedSeq` | src/proto/PINT-le-bytefield.c:52-91 | The zeroed value of every layout that has one is a well-formed value of it. |
| `SizeTable.ReqZeroable` | src/proto/PINT-le-bytefield.c:93-284 | Every request layout has a zeroed value, so every operation has a message to measure. |
| `SizeTable.RespZeroable` | src/proto/PINT-le-bytefield.c:93-284 | So has every response layout. |
| `SizeTable.MeasuredSizes` | src/proto/PINT-le-bytefield.c:997-1019 | The messages measured are valid, and the size recorded for each is the closed form `MaxReq` or `MaxResp` wherever the layout alone decides it. |
| `SizeTable.Measure` | src/proto/PINT-le-bytefield.c:265-283 | Encoding one request and one response yields exactly those sizes. |
| `SizeTable.Codec.constructor` | src/proto/PINT-le-bytefield.c:50-291 | The table holds the closed form for every operation that travels, wherever the layout alone decides it. |
| `SizeTable.LimitedPlain` | src/proto/PINT-le-bytefield.c:93-284 | It does for every request and response with a stated limit. |
| `SizeTable.LookupAndCreateRecorded` | src/proto/PINT-le-bytefield.c:114-136 | It does for lookup responses and create requests, so the results on those are about the table's limits. |
| `SizeTable.RequestEncoded` | src/proto/PINT-le-bytefield.c:447-456 | A request with one name, key or array within its limit and hints within their room is encoded without error against the table. |
| `SizeTable.ResponseEncoded` | src/proto/PINT-le-bytefield.c:553-563 | The same for responses with one text or one array of simple records. |
| `SizeTable.Codec.EncodeRequest` | src/proto/PINT-le-bytefield.c:366-458 | With the initialised table the overflow check never fires on such a request; otherwise the code is the one the size and the operation determine. |
| `SizeTable.Codec.EncodeResponse` | src/proto/PINT-le-bytefield.c:466-565 | The same for a response. |
| `Protocol.RequestFits` | src/proto/PINT-le-bytefield.c:447-456 | No request with one name, key or array within its limit and hints within their room is longer than `MaxReq`, which `SizeTable.Codec.constructor` shows is what the table holds. |
| `Protocol.ResponseFits` | src/proto/PINT-le-bytefield.c:553-563 | No response with one text or one array of simple records within its limit is longer than `MaxResp`, likewise. |
| `Protocol.CommonAttrSize` | src/proto/pvfs2-attr.h:222-279 | An attribute with only the common bits takes at most 56 bytes. |
| `Protocol.LookupResponseFits` | src/proto/pvfs2-req-proto.h:625-641 | A lookup response with up to 40 handles and attributes with the common bits is well formed and fits. |
| `Protocol.EstimateLayout` | include/pvfs2-types.h:217-227 | The loop's verdict is that of the sum over the server names. |
| `Protocol.EstimateIsBelowSize` | include/pvfs2-types.h:217-227 | Against what encoding the layout takes the estimate is never too high, and too low by at most seven bytes for each server, the padding. |
| `Protocol.OversizeReportedIff` | src/proto/pvfs2-req-proto.h:160-178 | Moving the cursor too far is noticed by the size check if and only if hints and attribute together take more than 547 bytes. |
| `Protocol.OversizeMissed` | src/proto/pvfs2-req-proto.h:160-178 | So it is never noticed with a common attribute and hints within their room. |
| `SmallIo.FillTotal` | src/proto/pvfs2-req-proto.h:1150-1184 | The byte count filled in is the sum of the segment sizes. |
| `SmallIo.PutSegments` | src/proto/pvfs2-req-proto.h:1097-1121 | The copying loop writes the segments end to end and moves the cursor by their sum. |
| `SmallIo.GatheredSize` | src/proto/pvfs2-req-proto.h:1110-1120 | The gathered bytes are as many as the sum of the sizes. |
| `SmallIo.GatheredAt` | src/proto/pvfs2-req-proto.h:1110-1120 | Byte m of segment k stands behind all the bytes of the segments before it. |
| `SmallIo.WriteRoundTrip` | src/proto/pvfs2-req-proto.h:1097-1144 | Filled-in count, copied bytes and decoded bytes agree: the server gets the concatenation of the segments and stops after exactly their sum. |
| `Hints.List.Check` | src/common/misc/pint-hint.c:280-296 | Found if and only if the list has a hint of the kind. |
| `Hints.List.Add` | src/common/misc/pint-hint.c:213-270 | Adds at the front unless the kind is present; no registered kind ever occurs twice. |
| `Hints.List.Set` | src/common/misc/pint-hint.c:113-161 | Afterwards the kind has the new value and every other kind keeps its own. |
| `Hints.List.Overwrite` | src/common/misc/pint-hint.c:179-211 | Exactly the first hint of the kind gets the new value. |
| `Hints.FindFirst` | src/common/misc/pint-hint.c:535-556 | What is read for a kind is the value of the first hint of that kind. |
| `Hints.Rebuild` | src/common/misc/pint-hint.c:339-382 | The decoding loop builds `Rebuilt` of the hints received, for any message, with no registered kind twice. |
| `Hints.ForwardedInOrder` | src/common/misc/pint-hint.c:298-382 | The receiver's list is the sender's travelling hints in reverse; passed on once more they are in order again. |
| `Hints.OrderKeptIff` | src/common/misc/pint-hint.c:213-270 | Registered hints arrive in the order sent if and only if at most one of them travels. |
| `Hints.ReceiverReads` | src/common/misc/pint-hint.c:535-556 | Order apart nothing is lost: for every registered kind except the operation number the receiver reads the value the sender set. |
| `Hints.RebuiltFirst` | src/common/misc/pint-hint.c:339-382 | From any message the receiver reads for a kind the value of the first hint that has it by number, or by a name it knows. |
| `Hints.SentOneByOne` | src/common/misc/pint-hint.c:298-337 | All hints travel, in order, but the operation number. |
| `Hints.RegisteredFit` | src/proto/PINT-le-bytefield.c:85-91 | Registered hints, each at most once, always fit the room the size table keeps for hints. |
| `Hints.RequestWithHintsFits` | src/proto/PINT-le-bytefield.c:447-456 | So with registered hints only, a request within its limit meets the conditions of `SizeTable.RequestEncoded` without one on hints. |
| `Hints.HintsArrive` | src/common/misc/pint-hint.c:298-382 | Through a whole request, in a buffer with any earlier contents: the decoded request carries the hints sent. |
| `Path.SegmentsOfPath` | src/common/misc/str-utils.h:24-27 | The segments are nonempty, without separators, and together are the path without its separators. |
| `Path.SegmentsAreRuns` | src/common/misc/str-utils.h:24-27 | They are exactly the maximal runs of other characters: as many as there are, and the run before which k others begin is segment k. |
| `Path.Cursor.NextSegment` | src/common/misc/str-utils.h:24-27 | Each call shows the next segment, cut out in place; when there is none it says so and the path is as it was given. |
| `Path.Cursor.Resume` | src/common/misc/str-utils.h:24-27 | Putting back the separator restores the path, and the search goes on where it stopped. |
| `Path.Cursor.Cut` | src/common/misc/str-utils.h:24-27 | Cutting out a name shows exactly that name and leaves the segments after it. |
| `Path.CountSegments` | src/server/lookup.c:306-311 | Counts the segments and leaves the path whole. |
| `Lookup.ChainIsLongest` | src/server/lookup.c:377-737 | The recursive walk is the longest one: a list of handles leads along the path - each the entry of its segment in a directory before it that may be traversed, as the namespace has it - if and only if it is a prefix of the walk's. |
| `Lookup.ChainReadable` | src/server/lookup.c:377-415 | Every object the walk passes was read and is a directory, so only the last one can be of another type. |
| `Lookup.ResponseSoundIff` | src/server/lookup.c:740-792 | The counts and status that are set up mean what they should - status 0 for at least one segment resolved, the attribute count the handle count or one less - if and only if the base's attributes can be read; otherwise they are status 0 and 2^32 - 1. |
| `Lookup.Machine.ReadObjectMetadata` | src/server/lookup.c:377-415 | Keeps the invariant that what was walked and what remains make up the whole walk; a failed read ends it. |
| `Lookup.Machine.VerifyObjectMetadata` | src/server/lookup.c:432-534 | Keeps the invariant; attributes go into the slot of their handle; the machine is stopped by its assertion if and only if the object is no directory, metafile or symlink. |
| `Lookup.Machine.EnterDirectory` | src/server/lookup.c:493-526 | Advances the segment cursor once, for a directory that may be traversed. |
| `Lookup.Machine.CheckAccessList` | src/server/lookup.c:540-645 | The other permission path keeps the invariant and advances the cursor once; the machine is suspended for good if and only if the access-list read is queued, because the job is posted with the wrong object to resume. |
| `Lookup.Machine.ReadDirectoryEntryHandle` | src/server/lookup.c:663-703 | Keeps the invariant; goes on with the dirdata handle the namespace has for the directory, or ends with the code of that read. |
| `Lookup.Machine.ReadDirectoryEntry` | src/server/lookup.c:705-737 | Counts one segment, within bounds, and descends to the entry of the segment's name in the dirdata object just read, or ends the walk with the code of that read. |
| `Lookup.Machine.SetUpResponse` | src/server/lookup.c:740-792 | The counts and status are those of the walk, in 32 bits. |
| `Lookup.Machine.Run` | src/server/lookup.c:100-292 | Every run ends with the answer of the walk, or is suspended if and only if the walk is stranded, or else is stopped if and only if the walk comes to an object of another type, for every namespace, path and pattern of failing reads. What the walk is, `Lookup.ChainIsLongest` says. |
| `Lookup.Machine.MakeReply` | src/proto/pvfs2-req-proto.h:625-638 | What was set up can be encoded if and only if the base's attributes could be read; otherwise encoding walks 2^32 - 1 attributes of an array of at most 40. |
| `Lookup.StrandedIff` | src/server/lookup.c:571-587 | A walk is stranded if and only if one of the objects it comes to with segments left is a directory whose mode bits refuse and whose access-list read is queued. |
| `Lookup.StrandedExactly` | src/server/lookup.c:571-587 | The same without the walk: some handles lead along the path to such a directory. |
| `Lookup.MeetsOtherExactly` | src/server/lookup.c:432-470 | The walk comes to an object of another type if and only if some handles lead along the path to one. |
| `Lookup.ReplyHandles` | src/server/lookup.c:663-737 | In every reply each handle is the entry of its segment in the base or the handle before it, which is a directory that may be traversed; and the first segment without a handle cannot be looked up. |
| `Lookup.ReplyStatus` | src/server/lookup.c:740-792 | Status 0 with at least one handle; with none the code of the read that failed, or ENOENT for a base that is no directory. The attributes are those of the handles, but for a last one that could not be read. |
| `Lookup.Walk` | src/server/lookup.c:300-362 | The whole request against the walk. |
| `Lookup.LookupPath` | src/server/lookup.c:300-362 | The whole request, read off the namespace without the walk. Never resumed if and only if the path has more than 40 segments or some handles lead to a directory, segments left, whose mode bits refuse and whose access-list read is queued; stopped if and only if not that and the base cannot be read or some handles lead to an object of another type. Otherwise every handle is the entry of its segment in the directory before it, the next segment cannot be looked up, and status, counts and attributes are those of the reads. |
| `LookupReply.AttrTyped` | src/server/lookup.c:432-470 | Every attribute the machine records is a well-formed wire attribute with only the common bits. |
| `LookupReply.AttrPositions` | src/proto/pvfs2-attr.h:222-231 | Where owner, group, permissions, the three times, mask and type of a recorded attribute stand in its bytes. |
| `LookupReply.ReplyFits` | src/proto/pvfs2-req-proto.h:625-641 | Every answer the machine can give to a path within the limit from a readable base is a well-formed response that fits its limit. |
| `Placement.Partition` | src/server/create.c:646-661 | Counts local and remote servers and lists the remote ones in order. |
| `Placement.Scatter` | src/server/create.c:947-966 | Each position of one kind gets the next handle of that kind; the others keep theirs. |
| `Placement.RemoteAt` | src/server/create.c:646-661 | A remote handle stands at a stripe of the server it was taken from. |
| `Placement.ScattersPlace` | src/server/create.c:983-995 | The two scatter loops, one after the other, fill every stripe. |
| `Placement.PlacedIsBijection` | src/server/create.c:983-995 | The stripes are distinct and use every local and every remote handle exactly once, for any server list with repeats. |
| `Create.SucceedsOrFails` | src/server/create.c:153-444 | A run either succeeds or fails first in exactly one state. |
| `Create.FailsAtFirst` | src/server/create.c:153-444 | The state that fails is the first, in the order they are tried, whose job fails; the pools are asked only if there are remote datafiles. |
| `Create.GivenBackExact` | src/server/create.c:858-907 | A remote handle goes back if and only if both of its jobs succeed, and to the pool noted for it, which `Create.FateOfRemote` shows is that of its own server. |
| `Create.FateOfMetafile` | src/server/create.c:796-819 | By failing state: when the metafile was made, and when it is removed again. |
| `Create.FateOfLocal` | src/server/create.c:822-855 | The same for every local datafile. |
| `Create.FateOfRemote` | src/server/create.c:858-907 | The same for the remote datafile of every stripe on another server: if it goes back, it goes to exactly that stripe's server. |
| `Create.LedgerIsExact` | src/server/create.c:796-932 | Removed, returned and residual handles are exactly the acquired ones, and none is both removed and returned, whichever clean-up jobs fail. |
| `Create.ResidueByState` | src/server/create.c:162-444 | With successful clean-up the residue is a fixed function of the failing state: the metafile after the layout check, the local datafiles after the two attribute states, and nothing after any other. |
| `Create.UndoneIff` | src/server/create.c:197-246 | With successful clean-up a failed create leaves nothing behind if and only if it failed outside the layout check and the two attribute states. |
| `Create.RemotesGoBack` | src/server/create.c:858-907 | With successful clean-up no remote handle is ever left behind. |
| `Create.MessageIgnored` | src/server/set-datafile-sttr-client.c:288-301 | How the attribute message to the remote datafiles ends makes no difference to success, first error, or any handle's fate. |
| `Create.Machine.SetRemoteAttributes` | src/server/set-datafile-sttr-client.c:131-301 | The nested machine always ends without error, so the create goes on. |
| `Create.FullPlacementPlaces` | src/server/create.c:936-995 | What the machine's two scatters leave is a placement of every handle. |
| `Create.Machine.CreateLocalDatafiles` | src/server/create.c:625-712 | Partitions the servers, acquires the local datafiles or starts the way back. |
| `Create.Machine.SetupLocalDatafileHandles` | src/server/create.c:936-968 | Places the local handles and keeps the invariant. |
| `Create.Machine.WriteKeyvalsAndPlace` | src/server/create.c:971-1081 | Places the remote handles; a failure starts at the return of remote handles. |
| `Create.Machine.UndoKeyvals` | src/server/create.c:910-932 | Saves the first error only; a failure skips the rest of the way back. |
| `Create.Machine.ReplaceRemoteHandles` | src/server/create.c:858-907 | Each visit returns the next remote handle to the pool noted for it or skips it, and never replaces the saved error. |
| `Create.Machine.UndoLocals` | src/server/create.c:822-855 | Removes the local datafiles or leaves them, and goes on. |
| `Create.Machine.UndoMetafile` | src/server/create.c:796-819 | Removes the metafile or leaves it, and goes on. |
| `Create.Machine.SetupFinalResponse` | src/server/create.c:449-462 | The saved error, if any, is the one to report. |
| `Create.Machine.Run` | src/server/create.c:153-444 | Every run ends, and has settled as the jobs alone determine. |
| `Create.CreateFile` | src/server/create.c:153-462 | One response; on success every stripe placed and nothing undone; on failure the first error, and exactly the removed and returned handles that the failing state determines; and a returned handle went to the server of its stripe. |
| `Scheduler.ExclusiveIsFirst` | src/server/request-scheduler/request-scheduler.h:47-53 | A request that needs its handle to itself is the longest-standing one that runs; all that runs with it are crdirent and rmdirent requests that joined it. |
| `Scheduler.MustRun` | src/server/request-scheduler/request-scheduler.h:47-53 | With everything before it started: I/O runs at once if and only if all else is I/O, a reader if and only if all else is read-only, a crdirent or rmdirent always; nothing overtakes a request that waits. |
| `Scheduler.LetInExactly` | src/server/request-scheduler/request-scheduler.h:64-66 | Who is let in when nobody runs any more: the first, and with it all I/O up to another sort, or all readers up to one that is none. |
| `Scheduler.Queue.Post` | src/server/request-scheduler/request-scheduler.h:47-53 | A request stands last in the queue, and runs at once or waits as `Scheduler.MustRun` says, with both directions stated; requests are let in from the front, and only beside those they may run with. |
| `Scheduler.Queue.Start` | src/server/request-scheduler/request-scheduler.h:73-76 | A request that was let in starts; the order is kept. |
| `Scheduler.Queue.Release` | src/server/request-scheduler/request-scheduler.h:64-66 | After a release the first request is never left waiting, the ones let in may run together, and all of them were waiting, as the code asserts. |
| `Scheduling.PostAdmits` | src/server/request-scheduler/request-scheduler.h:47-53 | A directory request that runs at once is one that the directory model admits. |
| `Scheduling.ReleaseAdmits` | src/server/request-scheduler/request-scheduler.h:64-66 | So is one that a release lets in, beside all that then runs. |
| `Scheduling.StartKeeps` | src/server/request-scheduler/request-scheduler.h:73-76 | Starting a request that was let in does not change which are running. |
| `Directory.ScanName` | src/server/crdirent.c:275-294 | Finds a separator if and only if the name has one. |
| `Directory.PerformLeaves` | src/server/crdirent.c:393-491 | Any job of any request leaves a sound store, changes no directory but the request's own, and leaves the request able to go on. |
| `Directory.PerformUndisturbed` | src/server/mkdir.c:259-413 | No job disturbs another request, even one on the same directory. |
| `Directory.StepKeepsValid` | src/server/mkdir.c:259-413 | Every arrival and every end of a job, successful or failed, keeps the invariant. |
| `Directory.RunKeepsValid` | src/server/mkdir.c:259-413 | Over every run the scheduler allows: no entry name has a separator, dirdata is unshared, and every directory answered for with status 0 has its own. |
| `Directory.RunScoped` | src/server/crdirent.c:393-445 | Over every run, a directory that no request names keeps its dirdata and its entries. |
| `Directory.CrdirentAdds` | src/server/crdirent.c:393-445 | In every valid state: a crdirent's write makes the name stand for the child and changes no other name, or answers EEXIST and changes nothing. |
| `Directory.CrdirentServed` | src/server/crdirent.c:393-491 | From its arrival a crdirent whose jobs are done is answered with status 0, the name stands for the child and no other name has changed. |
| `Directory.CrdirentChecked` | src/server/crdirent.c:257-309 | EINVAL if and only if the parent is null or the name has a separator, ENOTDIR if and only if else the parent is no directory. |
| `Directory.ChdirentChanges` | src/server/chdirent.c:359-399 | A chdirent's write makes the name stand for the new child and changes no other name. |
| `Directory.ChdirentAnswers` | src/server/chdirent.c:310-463 | Done in a row, a chdirent's jobs leave the name standing for the new child and answer with what it stood for. |
| `Directory.RmdirentTakes` | src/server/rmdirent.c:277-318 | A rmdirent's removal makes the name stand for nothing and changes no other name, or answers ENOENT and changes nothing. |
| `Directory.RmdirentAnswers` | src/server/rmdirent.c:277-360 | Done in a row, a rmdirent's jobs remove the name and answer with what it stood for. |
| `Directory.RemoveDirentTakes` | src/server/mgmt-remove-dirent.c:166-196 | The same for mgmt-remove-dirent, which answers without a handle. |
| `Directory.MkdirAnswers` | src/server/mkdir.c:259-413 | A mkdir whose jobs are done answers with the directory it made, which then has the dirdata object it made, empty. |
| `Directory.FailureReported` | src/server/crdirent.c:459-491 | A job that fails leaves the store as it was and its code in the answer, but for the chdirent write that stops the server. |
| `Directory.CountExact` | src/server/chdirent.c:359-399 | The count of a directory's entries falls short by exactly the number of chdirent writes that found their entry gone. |
| `Directory.CountedIff` | src/server/chdirent.c:359-399 | Counts that were right stay right over a run if and only if no chdirent in it writes an entry that has gone since it was read. |
| `Directory.CountedWithoutRmdirent` | src/server/chdirent.c:310-399 | Without rmdirent requests no chdirent does, in any run. |
| `Directory.CountsStayIff` | src/server/chdirent.c:310-399 | Over all runs: the counts stay right in every run if and only if no rmdirent may arrive, every chdirent that has read its entry still finds it, and no rmdirent under way is for an entry that a chdirent under way has read or may yet read. |
| `Directory.AbortsIff` | src/server/chdirent.c:448-463 | The assertion after a chdirent's write fails if and only if the store itself reports that write as one to a missing object. |
| `Directory.CountLost` | src/server/rmdirent.c:277-318 | From every state in which a chdirent has read its entry, a rmdirent that joins it leaves the count one short. |
| `Directory.EntryStaysIff` | src/server/crdirent.c:459-491 | The entry a crdirent has written is there in every run until the request is answered if and only if no rmdirent may arrive and no request scheduled beside it is still to remove or change that entry. |
| `Directory.AnsweredAfterRemoval` | src/server/mgmt-remove-dirent.c:166-196 | A crdirent that crosses a mgmt-remove-dirent of the same name can be answered with status 0 when its entry is gone. |
| `Directory.CrossingReached` | src/server/mgmt-remove-dirent.c:132-164 | From every state with an idle directory that lacks the name, the two do cross. |
| `Directory.Server.Admit` | src/server/prelude.c:213-232 | A request is let in if and only if it is a crdirent, a rmdirent or a mkdir, or nothing runs on its directory. |
| `Directory.Server.ReadDirData` | src/server/crdirent.c:335-364 | Answers with the read's error or ENOENT, or goes on with the directory's dirdata. |
| `Directory.Server.CrdirentValidate` | src/server/crdirent.c:257-309 | Rejects a null parent and a separator with EINVAL, a parent that is no directory with ENOTDIR. |
| `Directory.Server.CrdirentWrite` | src/server/crdirent.c:393-445 | Adds and counts the entry: the name then stands for the child; or answers EEXIST and changes nothing. |
| `Directory.Server.UpdateDirectoryAttr` | src/server/crdirent.c:459-491 | Answers with the job's outcome; what was written is not undone. |
| `Directory.Server.RmdirentRemove` | src/server/rmdirent.c:277-318 | Removes and discounts the entry and remembers its handle, or answers ENOENT and changes nothing. |
| `Directory.Server.ChdirentReadEntry` | src/server/chdirent.c:310-341 | Answers ENOENT for a missing name, or remembers the present handle. |
| `Directory.Server.ChdirentChange` | src/server/chdirent.c:359-463 | Writes the entry without counting, whether or not it is still there; answers a failure, except one for a missing object, which stops the server. |
| `Directory.Server.RemoveDirentEntry` | src/server/mgmt-remove-dirent.c:166-196 | Removes and discounts the entry, or answers ENOENT and changes nothing. |
| `Directory.Server.MkdirStep` | src/server/mkdir.c:259-413 | Makes the directory, then its dirdata object, then stores the key; a failure is answered and leaves what was made. |
| `Directory.Server.Serve` | src/server/mkdir.c:259-413 | The server's state after any sequence of arrivals and job ends is that of the run on values, and stays valid. What each job of a run does to a directory, the results above say name by name. |
| `IoMachine.EventOrder` | src/server/io.c:94-204 | When each event occurs, over the input's fields and both ways: the positive acknowledgement, the negative one and its code, the flow, and the completion, which is sent if and only if a write was accepted, acknowledged, moved without error and its response encoded. A flow only after a positive acknowledgement, a completion only after a flow, and the scheduler left exactly once, last. |
| `IoMachine.Machine.TestMigration` | src/server/io.c:221-252 | I/O on the datafile being migrated is refused, all other I/O goes on. |
| `IoMachine.Machine.SendCompletion` | src/server/io.c:496-547 | The first response is released before the second is encoded; a write whose response is encoded announces its end, a read does not; always ends at the release. |
| `IoMachine.Machine.LeaveScheduler` | src/server/io.c:422-450 | The scheduler is left once. |
| `IoMachine.Machine.CleanUp` | src/server/io.c:453-493 | Releases exactly what is live. |
| `IoMachine.Machine.Run` | src/server/io.c:94-204 | Every run ends, with the events its inputs determine, as `IoMachine.EventOrder` says, and no live buffer or flow descriptor. |
| `IoMachine.ServeIo` | src/server/io.c:94-547 | The whole request: exactly when each acknowledgement, with which code, the flow and the completion occur, over the input's fields; their order; and nothing leaked. |
| `ListAttr.SetupGetattr` | src/server/list-attr.c:217-298 | Pushes a machine for exactly the slots without an error whose frame could be made; a failed frame becomes ENOMEM, earlier errors stay. |
| `ListAttr.FramesExact` | src/server/list-attr.c:228-279 | The pushed slots are exactly those. |
| `ListAttr.Match` | src/server/list-attr.c:321-344 | A result goes to the first slot with its handle and to no other. |
| `ListAttr.InterpretGetattrs` | src/server/list-attr.c:300-348 | The popping loop gathers the results in the order given. |
| `ListAttr.Confluence` | src/server/list-attr.c:321-344 | Whatever order machines are popped in, every slot with a machine ends with its result and every other keeps its error. |
| `ListAttr.ArrivesIff` | src/server/list-attr.c:321-344 | Every result arrives, for all orders and results, if and only if no slot with a machine repeats the handle of an earlier slot. |
| `BatchRemove.AsWritten` | src/server/remove.c:530-547 | The program as written: a request is answered, keeps its promises and frees its frame once, if and only if the first prelude fails; otherwise nothing is removed and the first item, if scheduled, is never released, because the nested machine reads a null request. |
| `BatchRemove.StatusMeaning` | src/server/batch-remove.c:284-333 | With the request named in the nested frame: status 0 stands for no step failed; otherwise the first item with a failing step decides, with the code of its first such step, and is itself removed only if that was its release. |
| `BatchRemove.IdsExact` | src/server/batch-remove.c:284-308 | The numbers handed back are those of the scheduled items, each once, in order. |
| `BatchRemove.KeptUntouched` | src/server/batch-remove.c:218-333 | With the request named, and as long as freed memory keeps its contents: the removed handles are a prefix of the request, the first error is reported and every scheduled item is released exactly once, although the frame is freed once for every removal tried and once more. |
| `BatchRemove.KeptIff` | src/server/batch-remove.c:262-333 | With the request named or not: these promises hold for every content of freed memory if and only if the first prelude fails. |
| `BatchRemove.FreedOnceIff` | src/common/misc/state-machine-fns.c:543-558 | With the request named or not: the machine's frame is freed exactly once if and only if the first prelude fails. |
| `BatchRemove.SecondTargetCleared` | src/server/batch-remove.c:243-252 | With the request named, two items that succeed, and the nested frame placed where the freed one was: the second removal is of handle 0. |
| `BatchRemove.Machine.RunPrelude` | src/server/batch-remove.c:218-234 | Prepares the handle the frame names, which is anything once the frame was freed; the prelude may schedule the item whether or not it then fails. |
| `BatchRemove.Machine.RunRemoval` | src/server/batch-remove.c:236-282 | Faults unless the nested frame names the request; otherwise removes the handle read from the machine's frame, and then frees that frame, again for every item. |
| `BatchRemove.Machine.ReleaseItem` | src/server/batch-remove.c:284-308 | Releases the number read from the frame, if not zero, and saves an earlier error. |
| `BatchRemove.Machine.RemoveNext` | src/server/batch-remove.c:310-333 | The saved error and the index read from the frame decide whether the run goes on. |
| `BatchRemove.Machine.Run` | src/server/batch-remove.c:80-216 | The machine refines the rounds on values, for every content of freed memory, up to a fault. |
| `BatchRemove.RemoveAll` | src/server/batch-remove.c:218-333 | The whole request, to its fault or its final response and last free: exactly the outcome on values that the results above are about. |

## Left out

- Migration: modelled on values and not as objects with fields, because steps of several servers and clients interleave; update in place of the machine's own fields is not captured.
- Migration after the exchange: writes by clients that still hold the old datafile array are not judged, since nothing in the program prevents them.
- Migration target selection, load figures and forecasts: the datafile and the target server are inputs.
- Retries of message pairs: not modelled; a setattr that arrives after the sender gave up is the `late` case of the migration.
- Sizes at full limits for READDIR, GETEATTR, SETEATTR, MGMT_SETPARAM and attribute-carrying messages: the reserved room ignores padding or depends on the layout of C structures.
- SizeTable.Codec.constructor: gives no closed form for the requests of I/O, small I/O and setparam, whose size depends on a distribution name or a tag; they are measured like the others.
- Protocol.EncodeRequest: allocation of the buffer and its failure are not modelled, and the buffer is required to hold the message, because the program compares sizes only after writing.
- Request descriptions (`PINT_Request`): the records on the wire are modelled, linking them back into a tree is not.
- Attribute union: the parts for different object types are separate values here; they share memory in the program.
- Hints of unregistered names: the program passes their text to the string encoder through a pointer of the wrong type; the model carries the text itself.
- Lookup.LookupPath: a path without segments is excluded, because the machine then stores into arrays of length zero.
- Create.CreateFile: requires at least one local datafile for a file that is not stuffed and a successful address mapping; the back-pointer set through a file-wide variable is not modelled across creates.
- Create.Machine.UndoKeyvals: takes a failing removal of keyvals as a job that fails; in the program the storage layer would note the failure of a single key in an array that is null.
- BatchRemove.RemoveAll: assumes that a frame for each item can be made and pushed, and at least one handle; a run that the contents of freed memory keep going past the rounds given is reported as unfinished.
- Directory.Server.MkdirStep: does not model the attributes of the request, so not the case of attributes of another type.
- Scheduler: withdrawing a waiting request, administrative mode and timers are not modelled.
- Removal of a datafile while it is being moved: not modelled.
- Directory: after an assertion has stopped the server the model still goes on with the other requests.
- Directory permissions, times and access lists: jobs of the prelude, which may fail but are not modelled further.
- IoMachine: what a flow moves is not modelled, only that it ran and how it ended.
- Transport, storage, job and flow internals: inputs that succeed or fail.
- Freeing of decoded messages and heap ownership when allocation fails.
- Machines that only run one job after another (flush, noop, get-config, extended attributes, iterate-handles, batch-create and the like): not modelled.
- Logging, counters and event traces.
