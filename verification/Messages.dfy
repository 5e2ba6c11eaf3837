// Requests and responses: the layout of every operation, the generic header
// with its version rules, and the whole-message round trip.

module Messages {
  import opened Wire
  import opened Sizes

  // --------------------------------------------------------------------------
  // Shared layouts.
  // --------------------------------------------------------------------------

  const HANDLE := U64
  const FS_ID := I32
  const ENUM := I32
  const ERROR := I32
  const SIZE := I64
  const POSITION := U64

  // Registered distribution names, as the bytes of their characters.
  const BASIC_DIST: seq<byte> := [98, 97, 115, 105, 99, 95, 100, 105, 115, 116]
  const SIMPLE_STRIPE: seq<byte> := [115, 105, 109, 112, 108, 101, 95, 115, 116, 114, 105, 112, 101]
  const VARSTRIP_DIST: seq<byte> := [118, 97, 114, 115, 116, 114, 105, 112, 95, 100, 105, 115, 116]
  const TWOD_STRIPE: seq<byte> := [116, 119, 111, 100, 95, 115, 116, 114, 105, 112, 101]

  const DIST := Dep([Str], OneOf([
    Part(Named(0, BASIC_DIST), [Align]),
    Part(Named(0, SIMPLE_STRIPE), [SIZE, Align]),
    Part(Named(0, VARSTRIP_DIST), [Str, Align]),
    Part(Named(0, TWOD_STRIPE), [U32, SIZE, U32, Align])]))

  // A request tree, linearised: a count of nested requests, then one record more.
  const REQUEST_RECORD := Rec([I64, I32, I32, I64, I64, I64, I64, I32, I32, I32, I32, I32, PAD, U32, U32])
  const PINT_REQUEST := Dep([I32, PAD], Counted(0, 1, [REQUEST_RECORD], []))

  const HINT := Dep([U32], OneOf([
    Part(Equals(0, 1), [U32]), Part(Equals(0, 2), [U32]), Part(Equals(0, 3), [U64]),
    Part(Equals(0, 4), [U32]), Part(Equals(0, 5), [U32]), Part(Equals(0, 6), [U32]),
    Part(Always, [Str, Str])]))
  const HINTS := Dep([I32], Counted(0, 0, [HINT], []))

  const LAYOUT := Dep([ENUM, PAD, I32, PAD], Counted(2, 0, [Str], []))
  const EXTENTS := Dep([PAD, U32], Counted(1, 0, [Rec([HANDLE, HANDLE])], []))

  const META_DIST := 0x400
  const META_DFILES := 0x800
  // One bit with two names: a metafile that is not stuffed, and an attribute
  // that carries the new and the old handle of one datafile.
  const META_UNSTUFFED := 0x1000
  const META_SINGLE_DFILE := 0x1000
  const DATA_SIZE := 0x8000
  const SYMLINK_TARGET := 0x40000
  const DIRENT_COUNT := 0x80000
  const DIR_HINT := 0x100000
  const COMMON_ALL := 0x7f

  const TYPE_METAFILE := 1

  const MASK_AT := 7
  const TYPE_AT := 8
  const ATTR_HEAD := [U32, U32, U32, PAD, I64, I64, I64, U32, ENUM]

  const DFILES := Dep([U32, PAD], Counted(0, 0, [HANDLE], [U64]))
  const ATTR_PARTS := [
    Part(Both(Equals(TYPE_AT, TYPE_METAFILE), Not(HasBit(MASK_AT, META_UNSTUFFED))), [I32, PAD]),
    Part(HasBit(MASK_AT, META_DIST), [DIST]),
    Part(HasBit(MASK_AT, META_DFILES), [DFILES]),
    Part(HasBit(MASK_AT, META_SINGLE_DFILE), [HANDLE, HANDLE]),
    Part(HasBit(MASK_AT, DATA_SIZE), [SIZE]),
    Part(HasBit(MASK_AT, SYMLINK_TARGET), [U32, PAD, Str]),
    Part(Not(Both(Not(HasBit(MASK_AT, DIRENT_COUNT)), Not(HasBit(MASK_AT, DIR_HINT)))),
         [SIZE, U32, PAD, Str, U32, PAD, Str, U32])]
  const ATTR := Dep(ATTR_HEAD, When(ATTR_PARTS))

  const STUFFED_PART := 0
  const SINGLE_DFILE_PART := 3

  const DIRENT := Rec([Str, HANDLE])
  const STATFS := Rec([PAD, FS_ID, SIZE, SIZE, U64, U64, U64, U64, U64, U64, U64, U64])
  const PERF_STAT := Rec([I32, U32, U64, I64, I64, I64, I64, I32, I32, I32, PAD])
  const DSPACE_INFO := Rec([ERROR, PAD, HANDLE, ENUM, PAD, SIZE, HANDLE])
  const EVENT := Rec([I32, I32, I64, I64, I32, I32, I32, PAD])
  const PARAM_VALUE := Dep([ENUM], OneOf([Part(Equals(0, 0), [U64]), Part(Equals(0, 1), [Str])]))

  const IO_READ := 1
  const IO_WRITE := 2

  // --------------------------------------------------------------------------
  // Operations.
  // --------------------------------------------------------------------------

  const INVALID := 0
  const CREATE := 1
  const REMOVE := 2
  const IO := 3
  const GETATTR := 4
  const SETATTR := 5
  const LOOKUP_PATH := 6
  const CRDIRENT := 7
  const RMDIRENT := 8
  const CHDIRENT := 9
  const TRUNCATE := 10
  const MKDIR := 11
  const READDIR := 12
  const GETCONFIG := 13
  const WRITE_COMPLETION := 14
  const FLUSH := 15
  const MGMT_SETPARAM := 16
  const STATFS_OP := 18
  const PERF_UPDATE := 19
  const MGMT_PERF_MON := 20
  const MGMT_ITERATE_HANDLES := 21
  const MGMT_DSPACE_INFO_LIST := 22
  const MGMT_EVENT_MON := 23
  const MGMT_REMOVE_OBJECT := 24
  const MGMT_REMOVE_DIRENT := 25
  const MGMT_GET_DIRDATA_HANDLE := 26
  const JOB_TIMER := 27
  const PROTO_ERROR := 28
  const GETEATTR := 29
  const SETEATTR := 30
  const DELEATTR := 31
  const LISTEATTR := 32
  const SMALL_IO := 33
  const LISTATTR := 34
  const BATCH_CREATE := 35
  const BATCH_REMOVE := 36
  const PRECREATE_POOL_REFILLER := 37
  const UNSTUFF := 38
  const MIGRATION_POSTER := 39
  const SET_DF_ATTR_POSTER := 40
  const NUM_OPS := 41

  // Operations that never travel.
  predicate Internal(op: int) {
    op == INVALID || op == PERF_UPDATE || op == JOB_TIMER || op == PRECREATE_POOL_REFILLER || op == NUM_OPS
  }

  // The body of an operation's message, the room the size table adds for what
  // is variable in it, and its limits where the program states them.
  datatype Entry = Entry(op: int, fields: seq<Field>, extra: nat, limits: Limits)

  const NO_LIMITS := Limits(0, 0)

  const LIMIT_LAYOUT := 4096
  const LIMIT_DIST_BYTES := 1024
  const LIMIT_CONFIG_FILE_BYTES := 65536
  const LIMIT_SEGMENT_BYTES := 256
  const LIMIT_IOREQ_BYTES := 8192
  const LIMIT_DFILE_COUNT := 1024
  const LIMIT_PERF_MON_COUNT := 16
  const LIMIT_EVENT_MON_COUNT := 2048
  const LIMIT_HANDLES_COUNT := 1024
  const LIMIT_BATCH_CREATE := 8192
  const LIMIT_KEY_LEN := 128
  const LIMIT_KEYVAL_LIST := 32
  const LIMIT_LISTATTR := 113
  const SMALL_IO_MAXSIZE := 16384

  // Room beyond the fixed part of an attribute.
  const ATTR_EXTRA := LIMIT_DIST_BYTES + 4 + LIMIT_DFILE_COUNT * 8
  const CREATE_EXTRA := ATTR_EXTRA + LIMIT_LAYOUT
  const NAME_EXTRA := 264

  // Requests with one name or key, requests with one array, and the others.
  const NAMED: seq<Entry> := [
    Entry(LOOKUP_PATH, [Str, FS_ID, PAD, HANDLE, U32], NAME_EXTRA, Limits(0, LIMIT_SEGMENT_BYTES)),
    Entry(CRDIRENT, [Str, HANDLE, HANDLE, FS_ID], NAME_EXTRA, Limits(0, LIMIT_SEGMENT_BYTES)),
    Entry(RMDIRENT, [Str, HANDLE, FS_ID], NAME_EXTRA, Limits(0, LIMIT_SEGMENT_BYTES)),
    Entry(CHDIRENT, [Str, HANDLE, HANDLE, FS_ID], NAME_EXTRA, Limits(0, LIMIT_SEGMENT_BYTES)),
    Entry(MGMT_REMOVE_DIRENT, [HANDLE, FS_ID, PAD, Str], NAME_EXTRA, Limits(0, LIMIT_SEGMENT_BYTES)),
    Entry(DELEATTR, [HANDLE, FS_ID, KeyVal], LIMIT_KEY_LEN, Limits(0, LIMIT_KEY_LEN))]

  const LISTED: seq<Entry> := [
    Entry(MGMT_DSPACE_INFO_LIST, [Dep([FS_ID, I32], Counted(1, 0, [HANDLE], []))], LIMIT_HANDLES_COUNT * 8, Limits(LIMIT_HANDLES_COUNT, 0)),
    Entry(LISTEATTR, [Dep([HANDLE, FS_ID, PAD, POSITION, U32], Counted(4, 0, [SIZE], []))], LIMIT_KEYVAL_LIST * 8, Limits(LIMIT_KEYVAL_LIST, 0)),
    Entry(LISTATTR, [Dep([FS_ID, U32, PAD, U32], Counted(3, 0, [HANDLE], []))], LIMIT_LISTATTR * 8, Limits(LIMIT_LISTATTR, 0)),
    Entry(BATCH_CREATE, [FS_ID, ENUM, U32, PAD, EXTENTS], LIMIT_HANDLES_COUNT * 16, Limits(LIMIT_HANDLES_COUNT, 0)),
    Entry(BATCH_REMOVE, [Dep([FS_ID, I32], Counted(1, 0, [HANDLE], []))], LIMIT_HANDLES_COUNT * 8, Limits(LIMIT_HANDLES_COUNT, 0))]

  const OTHERS: seq<Entry> := [
    Entry(CREATE, [FS_ID, PAD, ATTR, I32, LAYOUT], CREATE_EXTRA, NO_LIMITS),
    Entry(REMOVE, [HANDLE, FS_ID], 0, NO_LIMITS),
    Entry(IO, [HANDLE, FS_ID, PAD, ENUM, ENUM, U32, U32, DIST, PINT_REQUEST, I64, SIZE], 256 + 100 * 88, NO_LIMITS),
    Entry(GETATTR, [HANDLE, FS_ID, U32], 0, NO_LIMITS),
    Entry(SETATTR, [HANDLE, FS_ID, PAD, ATTR], ATTR_EXTRA, NO_LIMITS),
    Entry(TRUNCATE, [HANDLE, FS_ID, PAD, SIZE, I32], 0, NO_LIMITS),
    Entry(MKDIR, [FS_ID, PAD, ATTR, EXTENTS], LIMIT_HANDLES_COUNT * 16, NO_LIMITS),
    Entry(READDIR, [HANDLE, FS_ID, U32, POSITION], 0, NO_LIMITS),
    Entry(FLUSH, [HANDLE, FS_ID, I32], 0, NO_LIMITS),
    Entry(MGMT_SETPARAM, [FS_ID, ENUM, PARAM_VALUE], 0, NO_LIMITS),
    Entry(STATFS_OP, [FS_ID], 0, NO_LIMITS),
    Entry(MGMT_PERF_MON, [U32, U32], 0, NO_LIMITS),
    Entry(MGMT_ITERATE_HANDLES, [FS_ID, I32, I32, POSITION], 0, NO_LIMITS),
    Entry(MGMT_EVENT_MON, [U32], 0, NO_LIMITS),
    Entry(MGMT_REMOVE_OBJECT, [HANDLE, FS_ID], 0, NO_LIMITS),
    Entry(MGMT_GET_DIRDATA_HANDLE, [HANDLE, FS_ID], 0, NO_LIMITS),
    Entry(GETEATTR, [Dep([HANDLE, FS_ID, I32], Counted(2, 0, [KeyVal, SIZE], []))], LIMIT_KEY_LEN * LIMIT_KEYVAL_LIST, NO_LIMITS),
    Entry(SETEATTR, [Dep([HANDLE, FS_ID, I32, PAD, I32], Counted(4, 0, [KeyVal, KeyVal], []))], (LIMIT_KEY_LEN + 4096) * LIMIT_KEYVAL_LIST, NO_LIMITS),
    Entry(SMALL_IO, [Dep([HANDLE, FS_ID, ENUM, U32, U32, DIST, PINT_REQUEST, I64, SIZE, SIZE, PAD], Payload(2, IO_WRITE, 9))], SMALL_IO_MAXSIZE, NO_LIMITS),
    Entry(UNSTUFF, [HANDLE, FS_ID, U32], 0, NO_LIMITS),
    Entry(MIGRATION_POSTER, [HANDLE, FS_ID, SIZE, HANDLE], 0, NO_LIMITS),
    Entry(SET_DF_ATTR_POSTER, [HANDLE, FS_ID, SIZE, HANDLE], 0, NO_LIMITS)]

  // Responses with one text or array of simple records, or the two arrays of a
  // lookup, and the others.
  const LISTED_RESPONSES: seq<Entry> := [
    Entry(CREATE, [Dep([HANDLE, I32, I32], Counted(2, 0, [HANDLE], []))], LIMIT_HANDLES_COUNT * 8, Limits(LIMIT_HANDLES_COUNT, 0)),
    Entry(GETCONFIG, [U32, PAD, Str], LIMIT_CONFIG_FILE_BYTES, Limits(0, LIMIT_CONFIG_FILE_BYTES)),
    Entry(MGMT_PERF_MON, [Dep([U32, PAD, U64, U64, PAD, U32], Counted(5, 0, [PERF_STAT], []))], LIMIT_IOREQ_BYTES, Limits(LIMIT_PERF_MON_COUNT, 0)),
    Entry(MGMT_ITERATE_HANDLES, [Dep([POSITION, PAD, I32], Counted(2, 0, [HANDLE], []))], LIMIT_HANDLES_COUNT * 8, Limits(LIMIT_HANDLES_COUNT, 0)),
    Entry(MGMT_EVENT_MON, [Dep([PAD, U32], Counted(1, 0, [EVENT], []))], LIMIT_EVENT_MON_COUNT * 40, Limits(LIMIT_EVENT_MON_COUNT, 0)),
    Entry(BATCH_CREATE, [Dep([PAD, U32], Counted(1, 0, [HANDLE], []))], LIMIT_BATCH_CREATE * 8, Limits(LIMIT_BATCH_CREATE, 0)),
    Entry(LOOKUP_PATH, [Dep([PAD, U32], Counted(1, 0, [HANDLE], [])), Dep([PAD, U32], Counted(1, 0, [ATTR], []))], LIMIT_IOREQ_BYTES, NO_LIMITS)]

  const OTHER_RESPONSES: seq<Entry> := [
    Entry(IO, [SIZE], 0, NO_LIMITS),
    Entry(GETATTR, [ATTR], ATTR_EXTRA, NO_LIMITS),
    Entry(RMDIRENT, [HANDLE], 0, NO_LIMITS),
    Entry(CHDIRENT, [HANDLE], 0, NO_LIMITS),
    Entry(MKDIR, [HANDLE], 0, NO_LIMITS),
    Entry(READDIR, [Dep([POSITION, U64, PAD, U32], Counted(3, 0, [DIRENT], []))], 135680, NO_LIMITS),
    Entry(WRITE_COMPLETION, [SIZE], 0, NO_LIMITS),
    Entry(STATFS_OP, [STATFS], 0, NO_LIMITS),
    Entry(MGMT_DSPACE_INFO_LIST, [Dep([PAD, I32], Counted(1, 0, [DSPACE_INFO], []))], 1024 * 40, NO_LIMITS),
    Entry(MGMT_GET_DIRDATA_HANDLE, [HANDLE], 0, NO_LIMITS),
    Entry(GETEATTR, [Dep([PAD, I32], Counted(1, 0, [KeyVal, ERROR], []))], 4096 * LIMIT_KEYVAL_LIST + LIMIT_KEYVAL_LIST * 4, NO_LIMITS),
    Entry(LISTEATTR, [Dep([POSITION, PAD, U32], Counted(2, 0, [KeyVal], []))], LIMIT_KEY_LEN * LIMIT_KEYVAL_LIST, NO_LIMITS),
    Entry(SMALL_IO, [Dep([ENUM, PAD, SIZE, SIZE], Payload(0, IO_READ, 3))], SMALL_IO_MAXSIZE, NO_LIMITS),
    Entry(LISTATTR, [Dep([PAD, U32], Counted(1, 0, [ERROR, ATTR], []))], LIMIT_LISTATTR * 4 + LIMIT_LISTATTR * ATTR_EXTRA, NO_LIMITS),
    Entry(UNSTUFF, [ATTR], ATTR_EXTRA, NO_LIMITS),
    Entry(MIGRATION_POSTER, [HANDLE], 0, NO_LIMITS),
    Entry(SET_DF_ATTR_POSTER, [HANDLE], 0, NO_LIMITS)]

  function Lookup(table: seq<Entry>, op: int): Option<Entry> {
    if table == [] then None
    else if table[0].op == op then Some(table[0])
    else Lookup(table[1..], op)
  }

  // An operation that selects no case of the switch has no body; this includes
  // numbers that are not in the enumeration.
  function ReqEntry(op: int): Entry {
    if Lookup(NAMED, op).Some? then Lookup(NAMED, op).value
    else if Lookup(LISTED, op).Some? then Lookup(LISTED, op).value
    else if Lookup(OTHERS, op).Some? then Lookup(OTHERS, op).value
    else Entry(op, [], 0, NO_LIMITS)
  }

  function RespEntry(op: int): Entry {
    if Lookup(LISTED_RESPONSES, op).Some? then Lookup(LISTED_RESPONSES, op).value
    else if Lookup(OTHER_RESPONSES, op).Some? then Lookup(OTHER_RESPONSES, op).value
    else Entry(op, [], 0, NO_LIMITS)
  }

  function ReqBody(op: int): seq<Field> { ReqEntry(op).fields }
  function RespBody(op: int): seq<Field> { RespEntry(op).fields }

  // --------------------------------------------------------------------------
  // Messages.
  // --------------------------------------------------------------------------

  datatype Error = EPROTO | EPROTONOSUPPORT | Fault   // Fault: reads outside the buffer, or stops

  datatype Result<T> = Ok(value: T) | Err(error: Error)

  datatype Request = Request(op: int, uid: int, gid: int, hints: Val, body: seq<Val>)
  datatype Response = Response(op: int, status: int, body: seq<Val>)

  datatype Version = Version(major: int, minor: int)

  // The single number sent for a version.
  function Packed(v: Version): int { v.major * 1000 + v.minor }

  predicate Sendable(v: Version) {
    0 <= v.major && 0 <= v.minor < 1000 && InRange(4, true, Packed(v))
  }

  const LE_BFIELD := 2
  const HEADER_SIZE := 8
  const REQ_HEAD := [ENUM, PAD, U32, U32, HINTS]
  const RESP_HEAD := [ENUM, ERROR]

  function ReqHeadValues(r: Request): seq<Val> { [N(r.op), Unit, N(r.uid), N(r.gid), r.hints] }
  function RespHeadValues(r: Response): seq<Val> { [N(r.op), N(r.status)] }

  predicate ValidReq(r: Request) {
    TypedSeq(REQ_HEAD, ReqHeadValues(r)) && TypedSeq(ReqBody(r.op), r.body)
  }

  // A failed operation carries no body.
  function BodyOf(op: int, status: int): seq<Field> {
    if status == 0 then RespBody(op) else []
  }

  predicate ValidResp(r: Response) {
    TypedSeq(RESP_HEAD, RespHeadValues(r)) && TypedSeq(BodyOf(r.op, r.status), r.body)
  }

  function HeaderCells(v: Version): (r: seq<Cell>)
    requires Sendable(v)
    ensures |r| == HEADER_SIZE
  {
    Puts(NumBytes(4, true, Packed(v))) + Puts(NumBytes(4, true, LE_BFIELD))
  }

  // Header, then the fields every message of its sort has, then its own.
  function Cells(v: Version, head: seq<Field>, hv: seq<Val>, body: seq<Field>, bv: seq<Val>): seq<Cell>
    requires Sendable(v) && TypedSeq(head, hv) && TypedSeq(body, bv)
  {
    var h := EncSeq(head, hv, HEADER_SIZE);
    HeaderCells(v) + (h + EncSeq(body, bv, HEADER_SIZE + |h|))
  }

  function ReqCells(v: Version, r: Request): seq<Cell>
    requires Sendable(v) && ValidReq(r)
  {
    Cells(v, REQ_HEAD, ReqHeadValues(r), ReqBody(r.op), r.body)
  }

  function RespCells(v: Version, r: Response): seq<Cell>
    requires Sendable(v) && ValidResp(r)
  {
    Cells(v, RESP_HEAD, RespHeadValues(r), BodyOf(r.op, r.status), r.body)
  }

  // C division rounds toward zero.
  function TruncDiv(a: int, b: int): int
    requires b > 0
  {
    if a >= 0 then a / b else -(-a / b)
  }

  function Unpacked(n: int): Version {
    Version(TruncDiv(n, 1000), n - TruncDiv(n, 1000) * 1000)
  }

  // The checks made before anything is decoded; `mine` is the receiver's version.
  function HeaderError(isRequest: bool, mine: Version, buf: seq<byte>): Option<Error> {
    if |buf| < HEADER_SIZE then Some(EPROTO)
    else
      var theirs := Unpacked(NumValue(true, buf[0..4]));
      if NumValue(true, buf[4..8]) != LE_BFIELD then Some(EPROTONOSUPPORT)
      else if theirs.major != mine.major then Some(EPROTONOSUPPORT)
      else if isRequest && theirs.minor > mine.minor then Some(EPROTONOSUPPORT)
      else if !isRequest && theirs.minor < mine.minor then Some(EPROTONOSUPPORT)
      else None
  }

  function DecodeReq(mine: Version, buf: seq<byte>): Result<Request> {
    if HeaderError(true, mine, buf).Some? then Err(HeaderError(true, mine, buf).value)
    else
      var h := DecSeq(REQ_HEAD, buf, HEADER_SIZE);
      if h.None? || |h.value.0| != 5 || !h.value.0[0].N? || !h.value.0[2].N? || !h.value.0[3].N? then Err(Fault)
      else
        var hv := h.value.0;
        var op := hv[0].n;
        if Internal(op) || op == WRITE_COMPLETION || op == PROTO_ERROR then Err(EPROTO)
        else
          var d := DecSeq(ReqBody(op), buf, h.value.1);
          if d.None? then Err(Fault)
          else if d.value.1 != |buf| then Err(EPROTO)
          else Ok(Request(op, hv[2].n, hv[3].n, hv[4], d.value.0))
  }

  // With a nonzero status the body and the length are not looked at.
  function DecodeResp(mine: Version, buf: seq<byte>): Result<Response> {
    if HeaderError(false, mine, buf).Some? then Err(HeaderError(false, mine, buf).value)
    else
      var h := DecSeq(RESP_HEAD, buf, HEADER_SIZE);
      if h.None? || |h.value.0| != 2 || !h.value.0[0].N? || !h.value.0[1].N? then Err(Fault)
      else
        var op, status := h.value.0[0].n, h.value.0[1].n;
        if status != 0 then Ok(Response(op, status, []))
        else if Internal(op) then Err(EPROTO)
        else
          var d := DecSeq(RespBody(op), buf, h.value.1);
          if d.None? then Err(Fault)
          else if d.value.1 != |buf| then Err(EPROTO)
          else Ok(Response(op, status, d.value.0))
  }

  // --------------------------------------------------------------------------
  // Versions.
  // --------------------------------------------------------------------------

  lemma UnpackedPacked(v: Version)
    requires Sendable(v)
    ensures Unpacked(Packed(v)) == v
  {
    assert (v.major * 1000 + v.minor) / 1000 == v.major;
  }

  lemma HeaderMatches(v: Version, buf: seq<byte>)
    requires Sendable(v) && Matches(buf, 0, HeaderCells(v))
    ensures |buf| >= HEADER_SIZE
    ensures NumValue(true, buf[0..4]) == v.major * 1000 + v.minor && NumValue(true, buf[4..8]) == 2
  {
    MatchesSplit(buf, 0, Puts(NumBytes(4, true, Packed(v))), Puts(NumBytes(4, true, LE_BFIELD)));
    NumMatches(4, true, Packed(v), buf, 0);
    NumMatches(4, true, LE_BFIELD, buf, 4);
  }

  // What a receiver makes of a header that any sender wrote.
  lemma HeaderVerdict(isRequest: bool, theirs: Version, mine: Version, buf: seq<byte>)
    requires Sendable(theirs) && Matches(buf, 0, HeaderCells(theirs))
    ensures HeaderError(isRequest, mine, buf).None? <==>
            theirs.major == mine.major && (if isRequest then theirs.minor <= mine.minor else theirs.minor >= mine.minor)
  {
    HeaderMatches(theirs, buf);
    UnpackedPacked(theirs);
  }

  // A client and a server understand each other, in both directions, exactly
  // when their major versions agree and the client is not the newer one.
  lemma Interoperation(client: Version, server: Version, request: seq<byte>, response: seq<byte>)
    requires Sendable(client) && Sendable(server)
    requires Matches(request, 0, HeaderCells(client)) && Matches(response, 0, HeaderCells(server))
    ensures HeaderError(true, server, request).None? && HeaderError(false, client, response).None? <==>
            client.major == server.major && client.minor <= server.minor
  {
    HeaderVerdict(true, client, server, request);
    HeaderVerdict(false, server, client, response);
  }

  // --------------------------------------------------------------------------
  // Whole messages.
  // --------------------------------------------------------------------------

  lemma {:induction false} TypedSeqAt(fs: seq<Field>, vs: seq<Val>, i: nat)
    requires TypedSeq(fs, vs) && i < |fs|
    ensures |fs| == |vs| && Typed(fs[i], vs[i])
    decreases |fs|
  {
    if i > 0 {
      TypedSeqAt(fs[1..], vs[1..], i - 1);
    }
  }

  lemma FirstMatches(fs: seq<Field>, vs: seq<Val>, buf: seq<byte>, pos: nat)
    requires fs != [] && TypedSeq(fs, vs) && Matches(buf, pos, EncSeq(fs, vs, pos))
    ensures Matches(buf, pos, Enc(fs[0], vs[0], pos))
    ensures var at := pos + |Enc(fs[0], vs[0], pos)|; Matches(buf, at, EncSeq(fs[1..], vs[1..], at))
  {
    var e := Enc(fs[0], vs[0], pos);
    MatchesSplit(buf, pos, e, EncSeq(fs[1..], vs[1..], pos + |e|));
  }

  // A number at the front of what is to be read.
  lemma NumFirst(w: nat, signed: bool, fs: seq<Field>, vs: seq<Val>, buf: seq<byte>, pos: nat)
    requires TypedSeq([Num(w, signed)] + fs, vs) && Matches(buf, pos, EncSeq([Num(w, signed)] + fs, vs, pos))
    ensures vs != [] && vs[0].N? && pos + w <= |buf| && NumValue(signed, buf[pos..pos + w]) == vs[0].n
    ensures TypedSeq(fs, vs[1..]) && Matches(buf, pos + w, EncSeq(fs, vs[1..], pos + w))
  {
    FirstMatches([Num(w, signed)] + fs, vs, buf, pos);
    assert ([Num(w, signed)] + fs)[1..] == fs;
    NumMatches(w, signed, vs[0].n, buf, pos);
  }

  lemma HeadMatches(v: Version, head: seq<Field>, hv: seq<Val>, body: seq<Field>, bv: seq<Val>, buf: seq<byte>)
    requires Sendable(v) && TypedSeq(head, hv) && TypedSeq(body, bv) && Matches(buf, 0, Cells(v, head, hv, body, bv))
    ensures Matches(buf, HEADER_SIZE, EncSeq(head, hv, HEADER_SIZE))
  {
    var h := EncSeq(head, hv, HEADER_SIZE);
    var b := EncSeq(body, bv, HEADER_SIZE + |h|);
    MatchesSplit(buf, 0, HeaderCells(v), h + b);
    MatchesSplit(buf, HEADER_SIZE, h, b);
  }

  // Where a request carries its operation and whom it is made for.
  lemma RequestPositions(v: Version, r: Request, buf: seq<byte>)
    requires Sendable(v) && ValidReq(r) && Matches(buf, 0, ReqCells(v, r))
    ensures |buf| >= 24 && NumValue(true, buf[8..12]) == r.op
    ensures NumValue(false, buf[16..20]) == r.uid && NumValue(false, buf[20..24]) == r.gid
  {
    var vs := ReqHeadValues(r);
    HeadMatches(v, REQ_HEAD, vs, ReqBody(r.op), r.body, buf);
    assert REQ_HEAD == [Num(4, true)] + [PAD, U32, U32, HINTS];
    NumFirst(4, true, [PAD, U32, U32, HINTS], vs, buf, 8);
    FirstMatches([PAD, U32, U32, HINTS], vs[1..], buf, 12);
    assert [PAD, U32, U32, HINTS][1..] == [Num(4, false)] + [U32, HINTS];
    NumFirst(4, false, [U32, HINTS], vs[1..][1..], buf, 16);
    assert [U32, HINTS] == [Num(4, false)] + [HINTS];
    NumFirst(4, false, [HINTS], vs[1..][1..][1..], buf, 20);
  }

  lemma ResponsePositions(v: Version, r: Response, buf: seq<byte>)
    requires Sendable(v) && ValidResp(r) && Matches(buf, 0, RespCells(v, r))
    ensures |buf| >= 16 && NumValue(true, buf[8..12]) == r.op && NumValue(true, buf[12..16]) == r.status
  {
    var vs := RespHeadValues(r);
    HeadMatches(v, RESP_HEAD, vs, BodyOf(r.op, r.status), r.body, buf);
    assert RESP_HEAD == [Num(4, true)] + [ERROR];
    NumFirst(4, true, [ERROR], vs, buf, 8);
    assert [ERROR] == [Num(4, true)] + [];
    NumFirst(4, true, [], vs[1..], buf, 12);
  }

  // Operations whose requests can be decoded.
  predicate Decodable(op: int) {
    !Internal(op) && op != WRITE_COMPLETION && op != PROTO_ERROR
  }

  // Whatever the buffer held before encoding: a receiver whose version accepts
  // the sender's decodes the same request when the buffer ends with it, and
  // rejects it when anything at all follows.
  lemma RequestRoundTrip(theirs: Version, mine: Version, r: Request, buf: seq<byte>)
    requires Sendable(theirs) && ValidReq(r) && Matches(buf, 0, ReqCells(theirs, r))
    requires theirs.major == mine.major && theirs.minor <= mine.minor
    ensures DecodeReq(mine, buf) ==
            if Decodable(r.op) && |buf| == |ReqCells(theirs, r)| then Ok(r) else Err(EPROTO)
  {
    var h := EncSeq(REQ_HEAD, ReqHeadValues(r), HEADER_SIZE);
    MatchesSplit(buf, 0, HeaderCells(theirs), h + EncSeq(ReqBody(r.op), r.body, HEADER_SIZE + |h|));
    RoundTripTwo(REQ_HEAD, ReqBody(r.op), ReqHeadValues(r), r.body, buf, HEADER_SIZE);
    HeaderVerdict(true, theirs, mine, buf);
    TypedSeqAt(REQ_HEAD, ReqHeadValues(r), 2);
    TypedSeqAt(REQ_HEAD, ReqHeadValues(r), 3);
  }

  // A response is returned unchanged when the buffer ends with it. A failed one
  // is returned whatever follows; a successful one is then rejected.
  lemma ResponseRoundTrip(theirs: Version, mine: Version, r: Response, buf: seq<byte>)
    requires Sendable(theirs) && ValidResp(r) && Matches(buf, 0, RespCells(theirs, r))
    requires theirs.major == mine.major && theirs.minor >= mine.minor
    ensures DecodeResp(mine, buf) ==
            if r.status != 0 || (!Internal(r.op) && |buf| == |RespCells(theirs, r)|) then Ok(r) else Err(EPROTO)
  {
    var h := EncSeq(RESP_HEAD, RespHeadValues(r), HEADER_SIZE);
    MatchesSplit(buf, 0, HeaderCells(theirs), h + EncSeq(BodyOf(r.op, r.status), r.body, HEADER_SIZE + |h|));
    RoundTripTwo(RESP_HEAD, BodyOf(r.op, r.status), RespHeadValues(r), r.body, buf, HEADER_SIZE);
    HeaderVerdict(false, theirs, mine, buf);
  }

  // --------------------------------------------------------------------------
  // Attributes.
  // --------------------------------------------------------------------------

  function AttrNum(v: Val, i: nat): int
    requires Typed(ATTR, v) && i in {MASK_AT, TYPE_AT}
  {
    TypedSeqAt(ATTR_HEAD, v.vs[0].vs, i);
    v.vs[0].vs[i].n
  }

  // The part of an attribute value that lies under the i-th test.
  function AttrPart(v: Val, i: nat): seq<Val>
    requires Typed(ATTR, v) && i < |ATTR_PARTS|
  {
    AttrPartTyped(v, i);
    v.vs[1].vs[i].vs
  }

  lemma AttrPartTyped(v: Val, i: nat)
    requires Typed(ATTR, v) && i < |ATTR_PARTS|
    ensures |v.vs[1].vs| == |ATTR_PARTS| && v.vs[1].vs[i].T?
    ensures TypedSeq(if Holds(ATTR_PARTS[i].guard, v.vs[0].vs) then ATTR_PARTS[i].fields else [], v.vs[1].vs[i].vs)
  {
    var hv := v.vs[0].vs;
    assert TailOf(ATTR_HEAD, When(ATTR_PARTS), hv).value == Present(ATTR_PARTS, hv);
    TypedSeqAt(Present(ATTR_PARTS, hv), v.vs[1].vs, i);
    var fields := if Holds(ATTR_PARTS[i].guard, hv) then ATTR_PARTS[i].fields else [];
    assert Present(ATTR_PARTS, hv)[i] == Rec(fields);
  }

  lemma AttrPartSize(v: Val, i: nat)
    requires Typed(ATTR, v) && i < |ATTR_PARTS|
    ensures |AttrPart(v, i)| == if Holds(ATTR_PARTS[i].guard, v.vs[0].vs) then |ATTR_PARTS[i].fields| else 0
  {
    AttrPartTyped(v, i);
  }

  lemma AttrBit(v: Val, b: nat)
    requires Typed(ATTR, v) && b > 0
    ensures Holds(HasBit(MASK_AT, b), v.vs[0].vs) <==> AttrNum(v, MASK_AT) / b % 2 == 1
  {
    TypedSeqAt(ATTR_HEAD, v.vs[0].vs, MASK_AT);
  }

  lemma PartUnderBit(v: Val, i: nat, b: nat)
    requires Typed(ATTR, v) && i < |ATTR_PARTS| && b > 0 && ATTR_PARTS[i].guard == HasBit(MASK_AT, b)
    ensures |AttrPart(v, i)| == if AttrNum(v, MASK_AT) / b % 2 == 1 then |ATTR_PARTS[i].fields| else 0
  {
    AttrPartSize(v, i);
    AttrBit(v, b);
  }

  // Which of its seven optional parts an attribute carries, by its mask and
  // type alone: first the stuffed size of a metafile,
  lemma StuffedPartByMask(v: Val)
    requires Typed(ATTR, v)
    ensures |AttrPart(v, 0)| == if AttrNum(v, TYPE_AT) == 1 && AttrNum(v, MASK_AT) / 0x1000 % 2 == 0 then 2 else 0
  {
    TypedSeqAt(ATTR_HEAD, v.vs[0].vs, TYPE_AT);
    AttrPartSize(v, 0);
    AttrBit(v, 0x1000);
  }

  // then distribution, datafiles, a pair of datafiles, size and link target,
  lemma SinglePartsByMask(v: Val)
    requires Typed(ATTR, v)
    ensures |AttrPart(v, 1)| == if AttrNum(v, MASK_AT) / 0x400 % 2 == 1 then 1 else 0
    ensures |AttrPart(v, 2)| == if AttrNum(v, MASK_AT) / 0x800 % 2 == 1 then 1 else 0
    ensures |AttrPart(v, 3)| == if AttrNum(v, MASK_AT) / 0x1000 % 2 == 1 then 2 else 0
    ensures |AttrPart(v, 4)| == if AttrNum(v, MASK_AT) / 0x8000 % 2 == 1 then 1 else 0
    ensures |AttrPart(v, 5)| == if AttrNum(v, MASK_AT) / 0x40000 % 2 == 1 then 3 else 0
  {
    PartUnderBit(v, 1, 0x400);
    PartUnderBit(v, 2, 0x800);
    PartUnderBit(v, 3, 0x1000);
    PartUnderBit(v, 4, 0x8000);
    PartUnderBit(v, 5, 0x40000);
  }

  // and last what a directory has, under either of two bits.
  lemma DirectoryPartByMask(v: Val)
    requires Typed(ATTR, v)
    ensures |AttrPart(v, 6)| ==
            if AttrNum(v, MASK_AT) / 0x80000 % 2 == 1 || AttrNum(v, MASK_AT) / 0x100000 % 2 == 1 then 8 else 0
  {
    AttrPartSize(v, 6);
    AttrBit(v, 0x80000);
    AttrBit(v, 0x100000);
  }

  // The one bit with two meanings makes the two layouts exclusive: a metafile
  // attribute carries its stuffed size or a pair of datafile handles, never
  // both and never neither, and the bit in the mask says which.
  lemma MetafileCarriesOne(v: Val)
    requires Typed(ATTR, v) && AttrNum(v, TYPE_AT) == TYPE_METAFILE
    ensures (AttrPart(v, STUFFED_PART) == []) != (AttrPart(v, SINGLE_DFILE_PART) == [])
    ensures AttrPart(v, SINGLE_DFILE_PART) != [] <==> AttrNum(v, MASK_AT) / META_SINGLE_DFILE % 2 == 1
  {
    StuffedPartByMask(v);
    SinglePartsByMask(v);
  }
}
