// Encoding and decoding whole messages as the program does it, the table of
// largest message sizes, and the gathering of small writes.

module Protocol {
  import opened Wire
  import opened Messages
  import opened Encoder
  import opened Sizes

  // --------------------------------------------------------------------------
  // Encoding into, and decoding from, a buffer.
  // --------------------------------------------------------------------------

  method PutHeader(c: Cursor, v: Version)
    requires Sendable(v) && c.Room(HEADER_SIZE)
    modifies c, c.buf
    ensures c.pos == old(c.pos) + HEADER_SIZE
    ensures c.buf[..] == Overlay(old(c.buf[..]), old(c.pos), HeaderCells(v))
  {
    ghost var before, at := c.buf[..], c.pos;
    c.PutNum(4, true, Packed(v));
    c.PutNum(4, true, LE_BFIELD);
    OverlayAppend(before, at, Puts(NumBytes(4, true, Packed(v))), Puts(NumBytes(4, true, LE_BFIELD)));
  }

  // The size is compared with the limit only after everything was written.
  method EncodeMessage(buf: array<byte>, v: Version, head: seq<Field>, hv: seq<Val>, body: seq<Field>, bv: seq<Val>)
    returns (total: nat)
    requires Sendable(v) && TypedSeq(head, hv) && TypedSeq(body, bv) && |Cells(v, head, hv, body, bv)| <= buf.Length
    modifies buf
    ensures buf[..] == Overlay(old(buf[..]), 0, Cells(v, head, hv, body, bv))
    ensures total == |Cells(v, head, hv, body, bv)|
  {
    ghost var before := buf[..];
    ghost var h := EncSeq(head, hv, HEADER_SIZE);
    ghost var b := EncSeq(body, bv, HEADER_SIZE + |h|);
    var c := new Cursor(buf, 0);
    PutHeader(c, v);
    c.PutTwo(head, hv, body, bv);
    OverlayAppend(before, 0, HeaderCells(v), h + b);
    total := c.pos;
  }

  datatype Code = Encoded | ENOSYS | ENOMEM

  // An operation without an encoding is reported unless the size is.
  function EncodeCode(known: bool, total: nat, limit: int): Code {
    if total > limit then ENOMEM else if known then Encoded else ENOSYS
  }

  method EncodeRequest(buf: array<byte>, v: Version, r: Request, limit: int) returns (total: nat, code: Code)
    requires Sendable(v) && ValidReq(r) && |ReqCells(v, r)| <= buf.Length
    modifies buf
    ensures buf[..] == Overlay(old(buf[..]), 0, ReqCells(v, r))
    ensures total == |ReqCells(v, r)|
    ensures code == EncodeCode(!Internal(r.op) && r.op != WRITE_COMPLETION, total, limit)
    ensures code == ENOMEM <==> total > limit
    ensures code == Encoded <==> total <= limit && !Internal(r.op) && r.op != WRITE_COMPLETION
  {
    code := if Internal(r.op) || r.op == WRITE_COMPLETION then ENOSYS else Encoded;
    total := EncodeMessage(buf, v, REQ_HEAD, ReqHeadValues(r), ReqBody(r.op), r.body);
    if total > limit {
      code := ENOMEM;
    }
  }

  method EncodeResponse(buf: array<byte>, v: Version, r: Response, limit: int) returns (total: nat, code: Code)
    requires Sendable(v) && ValidResp(r) && |RespCells(v, r)| <= buf.Length
    modifies buf
    ensures buf[..] == Overlay(old(buf[..]), 0, RespCells(v, r))
    ensures total == |RespCells(v, r)|
    ensures code == EncodeCode(r.status != 0 || !Internal(r.op), total, limit)
    ensures code == ENOMEM <==> total > limit
    ensures code == Encoded <==> total <= limit && (r.status != 0 || !Internal(r.op))
  {
    code := if r.status == 0 && Internal(r.op) then ENOSYS else Encoded;
    total := EncodeMessage(buf, v, RESP_HEAD, RespHeadValues(r), BodyOf(r.op, r.status), r.body);
    if total > limit {
      code := ENOMEM;
    }
  }

  method CheckHeader(buf: array<byte>, isRequest: bool, mine: Version) returns (e: Option<Error>)
    ensures e == HeaderError(isRequest, mine, buf[..])
    ensures e == Some(EPROTO) <==> buf.Length < 8
    ensures buf.Length >= 8 && e.Some? ==> e == Some(EPROTONOSUPPORT)
    ensures buf.Length >= 8 && NumValue(true, buf[..][4..8]) != 2 ==> e.Some?
  {
    if buf.Length < HEADER_SIZE { return Some(EPROTO); }
    var version := TakeNum(buf, 0, 4, true);
    var encoding := TakeNum(buf, 4, 4, true);
    var theirs := Unpacked(version.value.0.n);
    if encoding.value.0.n != LE_BFIELD { return Some(EPROTONOSUPPORT); }
    if theirs.major != mine.major { return Some(EPROTONOSUPPORT); }
    if isRequest && theirs.minor > mine.minor { return Some(EPROTONOSUPPORT); }
    if !isRequest && theirs.minor < mine.minor { return Some(EPROTONOSUPPORT); }
    return None;
  }

  method DecodeRequest(buf: array<byte>, mine: Version) returns (r: Result<Request>)
    ensures r == DecodeReq(mine, buf[..])
  {
    var e := CheckHeader(buf, true, mine);
    if e.Some? { return Err(e.value); }
    var h := TakeFields(buf, REQ_HEAD, HEADER_SIZE);
    if h.None? || |h.value.0| != 5 || !h.value.0[0].N? || !h.value.0[2].N? || !h.value.0[3].N? { return Err(Fault); }
    var hv := h.value.0;
    var op := hv[0].n;
    if Internal(op) || op == WRITE_COMPLETION || op == PROTO_ERROR { return Err(EPROTO); }
    var d := TakeFields(buf, ReqBody(op), h.value.1);
    if d.None? { return Err(Fault); }
    if d.value.1 != buf.Length { return Err(EPROTO); }
    return Ok(Request(op, hv[2].n, hv[3].n, hv[4], d.value.0));
  }

  method DecodeResponse(buf: array<byte>, mine: Version) returns (r: Result<Response>)
    ensures r == DecodeResp(mine, buf[..])
  {
    var e := CheckHeader(buf, false, mine);
    if e.Some? { return Err(e.value); }
    var h := TakeFields(buf, RESP_HEAD, HEADER_SIZE);
    if h.None? || |h.value.0| != 2 || !h.value.0[0].N? || !h.value.0[1].N? { return Err(Fault); }
    var op, status := h.value.0[0].n, h.value.0[1].n;
    if status != 0 { return Ok(Response(op, status, [])); }
    if Internal(op) { return Err(EPROTO); }
    var d := TakeFields(buf, RespBody(op), h.value.1);
    if d.None? { return Err(Fault); }
    if d.value.1 != buf.Length { return Err(EPROTO); }
    return Ok(Response(op, status, d.value.0));
  }

  // What the encoder leaves in a buffer with any earlier contents decodes to
  // the request it was given, and to an error once anything follows it.
  lemma EncodeThenDecode(before: seq<byte>, theirs: Version, mine: Version, r: Request, after: seq<byte>)
    requires Sendable(theirs) && ValidReq(r) && Decodable(r.op) && |ReqCells(theirs, r)| <= |before|
    requires theirs.major == mine.major && theirs.minor <= mine.minor
    ensures var cells := ReqCells(theirs, r);
            DecodeReq(mine, Overlay(before, 0, cells)[..|cells|] + after) == if after == [] then Ok(r) else Err(EPROTO)
  {
    var cells := ReqCells(theirs, r);
    OverlayMatches(before, 0, cells);
    var buf := Overlay(before, 0, cells)[..|cells|] + after;
    forall i | 0 <= i < |cells| && cells[i].Put? ensures buf[i] == cells[i].b {
      assert buf[i] == Overlay(before, 0, cells)[0 + i];
    }
    RequestRoundTrip(theirs, mine, r, buf);
  }

  // The same for a response; after a failed one anything may follow.
  lemma EncodeThenDecodeResponse(before: seq<byte>, theirs: Version, mine: Version, r: Response, after: seq<byte>)
    requires Sendable(theirs) && ValidResp(r) && !Internal(r.op) && |RespCells(theirs, r)| <= |before|
    requires theirs.major == mine.major && theirs.minor >= mine.minor
    ensures var cells := RespCells(theirs, r);
            DecodeResp(mine, Overlay(before, 0, cells)[..|cells|] + after) ==
            if after == [] || r.status != 0 then Ok(r) else Err(EPROTO)
  {
    var cells := RespCells(theirs, r);
    OverlayMatches(before, 0, cells);
    var buf := Overlay(before, 0, cells)[..|cells|] + after;
    forall i | 0 <= i < |cells| && cells[i].Put? ensures buf[i] == cells[i].b {
      assert buf[i] == Overlay(before, 0, cells)[0 + i];
    }
    ResponseRoundTrip(theirs, mine, r, buf);
  }

  // --------------------------------------------------------------------------
  // The table of largest sizes.
  // --------------------------------------------------------------------------

  // The initialiser gives every request the largest number of hints, each with
  // an empty name and an empty value.
  const HINT_MAX := 24
  const EMPTY_HINT := T([T([N(0)]), T([B([]), B([])])])
  const HINT_ROOM := 484

  function EmptyHints(n: nat): (r: seq<Val>)
    ensures |r| == n
  {
    if n == 0 then [] else [EMPTY_HINT] + EmptyHints(n - 1)
  }

  const MAX_HINTS := T([T([N(HINT_MAX)]), T(EmptyHints(HINT_MAX))])

  predicate InitialReq(r: Request) {
    ValidReq(r) && r.hints == MAX_HINTS && InitialSeq(ReqBody(r.op), r.body)
  }

  predicate InitialResp(r: Response) {
    ValidResp(r) && r.status == 0 && InitialSeq(RespBody(r.op), r.body)
  }

  function MaxReq(op: int): int {
    HEADER_SIZE + 16 + HINT_ROOM + InitSizeSeq(ReqBody(op)) + ReqEntry(op).extra
  }

  function MaxResp(op: int): int {
    HEADER_SIZE + 8 + InitSizeSeq(RespBody(op)) + RespEntry(op).extra
  }

  lemma {:induction false} EmptyHintsSize(n: nat, pos: nat)
    ensures TypedSeq(Copies(HINT, n), EmptyHints(n)) && |EncSeq(Copies(HINT, n), EmptyHints(n), pos)| == 20 * n
  {
    if n == 0 {
    } else {
      EmptyHintSize(pos);
      EmptyHintsSize(n - 1, pos + 20);
      assert Copies(HINT, n)[1..] == Copies(HINT, n - 1) && EmptyHints(n)[1..] == EmptyHints(n - 1);
    }
  }

  lemma OneField(f: Field, v: Val, pos: nat)
    requires Typed(f, v)
    ensures TypedSeq([f], [v]) && |EncSeq([f], [v], pos)| == |Enc(f, v, pos)|
  {
    assert [f][1..] == [] && [v][1..] == [];
    assert TypedSeq([], []);
  }

  lemma TwoFields(f: Field, g: Field, v: Val, w: Val, pos: nat)
    requires Typed(f, v) && Typed(g, w)
    ensures TypedSeq([f, g], [v, w])
    ensures |EncSeq([f, g], [v, w], pos)| == |Enc(f, v, pos)| + |Enc(g, w, pos + |Enc(f, v, pos)|)|
  {
    assert [f, g] == [f] + [g] && [v, w] == [v] + [w];
    EncAppend([f], [v], [g], [w], pos);
    OneField(f, v, pos);
    OneField(g, w, pos + |Enc(f, v, pos)|);
  }

  lemma EmptyHintSize(pos: nat)
    ensures Typed(HINT, EMPTY_HINT) && |Enc(HINT, EMPTY_HINT, pos)| == 20
  {
    FirstIs(HINT.kind.parts, [N(0)], 6);
    assert Typed(U32, N(0)) && Typed(Str, B([]));
    OneField(U32, N(0), pos);
    TwoFields(Str, Str, B([]), B([]), pos + 4);
  }

  lemma ReqHeadSize(r: Request)
    requires TypedSeq(REQ_HEAD, ReqHeadValues(r))
    ensures Typed(HINTS, r.hints)
    ensures |EncSeq(REQ_HEAD, ReqHeadValues(r), HEADER_SIZE)| == 16 + |Enc(HINTS, r.hints, 24)|
  {
    var fs, vs := [ENUM, PAD, U32, U32], [N(r.op), Unit, N(r.uid), N(r.gid)];
    assert REQ_HEAD == fs + [HINTS] && ReqHeadValues(r) == vs + [r.hints];
    EncAppend(fs, vs, [HINTS], [r.hints], HEADER_SIZE);
    FixedExact(fs, vs, HEADER_SIZE);
    Four(ENUM, PAD, U32, U32);
    OneField(HINTS, r.hints, 24);
  }

  lemma ReqSize(v: Version, r: Request)
    requires Sendable(v) && ValidReq(r)
    ensures Typed(HINTS, r.hints)
    ensures var hints := |Enc(HINTS, r.hints, 24)|;
            |ReqCells(v, r)| == 24 + hints + |EncSeq(ReqBody(r.op), r.body, 24 + hints)|
  {
    ReqHeadSize(r);
  }

  lemma RespSize(v: Version, r: Response)
    requires Sendable(v) && ValidResp(r)
    ensures |RespCells(v, r)| == 16 + |EncSeq(BodyOf(r.op, r.status), r.body, 16)|
  {
    FixedExact(RESP_HEAD, RespHeadValues(r), HEADER_SIZE);
    Pair(ENUM, ERROR);
  }

  lemma InitialReqSize(v: Version, r: Request)
    requires Sendable(v) && InitialReq(r) && PlainSeq(ReqBody(r.op))
    ensures ReqEntry(r.op).extra + |ReqCells(v, r)| == MaxReq(r.op)
  {
    ReqSize(v, r);
    EmptyHintsSize(HINT_MAX, 28);
    NoMoreGroups(HINT, HINT_MAX);
    assert |EncSeq([I32], [N(HINT_MAX)], 24)| == 4;
    assert |Enc(HINTS, MAX_HINTS, 24)| == HINT_ROOM;
    InitExactSeq(ReqBody(r.op), r.body, 24 + HINT_ROOM);
  }

  lemma NoMoreGroups(f: Field, n: nat)
    ensures Groups([f], n) + [] == Copies(f, n)
  {
    assert Groups([f][1..], n) == [];
  }

  lemma {:induction false} CopiesTyped(f: Field, vs: seq<Val>)
    requires forall i :: 0 <= i < |vs| ==> Typed(f, vs[i])
    ensures TypedSeq(Copies(f, |vs|), vs)
    decreases |vs|
  {
    if vs == [] {
    } else {
      CopiesTyped(f, vs[1..]);
      assert Copies(f, |vs|)[1..] == Copies(f, |vs[1..]|);
    }
  }

  lemma {:induction false} AllTyped(fs: seq<Field>, vs: seq<Val>)
    requires |fs| == |vs| && forall i :: 0 <= i < |fs| ==> Typed(fs[i], vs[i])
    ensures TypedSeq(fs, vs)
    decreases |fs|
  {
    if fs != [] {
      AllTyped(fs[1..], vs[1..]);
    }
  }

  lemma InitialRespSize(v: Version, r: Response)
    requires Sendable(v) && InitialResp(r) && PlainSeq(RespBody(r.op))
    ensures RespEntry(r.op).extra + |RespCells(v, r)| == MaxResp(r.op)
  {
    RespSize(v, r);
    InitExactSeq(RespBody(r.op), r.body, 16);
  }

  // --------------------------------------------------------------------------
  // Messages within the protocol's limits fit.
  // --------------------------------------------------------------------------

  // The recorded size leaves room for everything within the limits.
  predicate Covered(e: Entry) {
    SlackSeq(e.fields, e.limits) <= e.extra
  }

  lemma NamedCovered(k: nat)
    requires k < |NAMED|
    ensures Covered(NAMED[k])
  {
    OneVaries(NAMED[k].fields, if k == 4 then 3 else if k == 5 then 2 else 0, NAMED[k].limits);
  }

  lemma ListedCovered(k: nat)
    requires k < |LISTED|
    ensures Covered(LISTED[k])
  {
    var fs, lim := LISTED[k].fields, LISTED[k].limits;
    if k == 3 {
      OneVaries([FS_ID, ENUM, U32, PAD, EXTENTS], 4, lim);
      Pair(HANDLE, HANDLE);
      FixedSlack([HANDLE, HANDLE], lim);
      ArraySlack([PAD, U32], 1, Rec([HANDLE, HANDLE]), lim);
    } else {
      ArrayCovered(fs[0].head, fs[0].kind.at, fs[0].kind.groups[0], lim);
    }
  }

  lemma PerfStatSize(lim: Limits)
    ensures InitSize(PERF_STAT) == 64 && Slack(PERF_STAT, lim) == 0
  {
    var a, b, c := [I32, U32, U64, I64], [I64, I64, I64, I32], [I32, I32, PAD];
    assert PERF_STAT == Rec(a + b + c);
    Four(I32, U32, U64, I64);
    Four(I64, I64, I64, I32);
    Pair(I32, PAD);
    assert c[1..] == [I32, PAD];
    RoomAppend(a, b, lim);
    RoomAppend(a + b, c, lim);
    FixedSlack(PERF_STAT.fields, lim);
  }

  lemma EventSize(lim: Limits)
    ensures InitSize(EVENT) == 40 && Slack(EVENT, lim) == 0
  {
    var d, e := [I32, I32, I64, I64], [I32, I32, I32, PAD];
    assert EVENT == Rec(d + e);
    Four(I32, I32, I64, I64);
    Four(I32, I32, I32, PAD);
    RoomAppend(d, e, lim);
    FixedSlack(EVENT.fields, lim);
  }

  const LOOKUP_RESPONSE := 6

  lemma HandleListsCovered()
    ensures Covered(LISTED_RESPONSES[0]) && Covered(LISTED_RESPONSES[3]) && Covered(LISTED_RESPONSES[5])
  {
    ArrayCovered([HANDLE, I32, I32], 2, HANDLE, LISTED_RESPONSES[0].limits);
    ArrayCovered([POSITION, PAD, I32], 2, HANDLE, LISTED_RESPONSES[3].limits);
    ArrayCovered([PAD, U32], 1, HANDLE, LISTED_RESPONSES[5].limits);
  }

  lemma RecordListsCovered()
    ensures Covered(LISTED_RESPONSES[2]) && Covered(LISTED_RESPONSES[4])
  {
    PerfStatSize(LISTED_RESPONSES[2].limits);
    ArrayCovered([U32, PAD, U64, U64, PAD, U32], 5, PERF_STAT, LISTED_RESPONSES[2].limits);
    EventSize(LISTED_RESPONSES[4].limits);
    ArrayCovered([PAD, U32], 1, EVENT, LISTED_RESPONSES[4].limits);
  }

  lemma TextCovered()
    ensures Covered(LISTED_RESPONSES[1])
  {
    OneVaries([U32, PAD, Str], 2, LISTED_RESPONSES[1].limits);
  }

  lemma ListedResponseCovered(k: nat)
    requires k < LOOKUP_RESPONSE
    ensures Covered(LISTED_RESPONSES[k])
  {
    HandleListsCovered();
    RecordListsCovered();
    TextCovered();
  }

  lemma ArrayCovered(head: seq<Field>, at: nat, elem: Field, lim: Limits)
    requires forall i :: 0 <= i < |head| ==> IsFixed(head[i])
    requires Slack(elem, lim) == 0
    ensures SlackSeq([Dep(head, Counted(at, 0, [elem], []))], lim) == lim.count * InitSize(elem)
  {
    Single(Dep(head, Counted(at, 0, [elem], [])), lim);
    ArraySlack(head, at, elem, lim);
  }

  // The overflow check never fires on a request that carries one name, key or
  // array, keeps its limit, and whose hints take no more room than the
  // initialiser's.
  lemma RequestFits(v: Version, r: Request)
    requires Sendable(v) && ValidReq(r) && (ReqEntry(r.op) in NAMED || ReqEntry(r.op) in LISTED)
    requires WithinSeq(ReqBody(r.op), r.body, ReqEntry(r.op).limits)
    requires Typed(HINTS, r.hints) && |Enc(HINTS, r.hints, 24)| <= HINT_ROOM
    ensures |ReqCells(v, r)| <= MaxReq(r.op)
  {
    var e := ReqEntry(r.op);
    ReqSize(v, r);
    EncBoundSeq(e.fields, r.body, 24 + |Enc(HINTS, r.hints, 24)|, e.limits);
    if k :| 0 <= k < |NAMED| && e == NAMED[k] {
      NamedCovered(k);
    } else {
      var k :| 0 <= k < |LISTED| && e == LISTED[k];
      ListedCovered(k);
    }
  }

  lemma ResponseFits(v: Version, r: Response)
    requires Sendable(v) && ValidResp(r) && RespEntry(r.op) in LISTED_RESPONSES[..LOOKUP_RESPONSE]
    requires r.status == 0 ==> WithinSeq(RespBody(r.op), r.body, RespEntry(r.op).limits)
    ensures |RespCells(v, r)| <= MaxResp(r.op)
  {
    RespSize(v, r);
    if r.status == 0 {
      var e := RespEntry(r.op);
      EncBoundSeq(e.fields, r.body, 16, e.limits);
      var k :| 0 <= k < LOOKUP_RESPONSE && e == LISTED_RESPONSES[k];
      ListedResponseCovered(k);
    }
  }

  // --------------------------------------------------------------------------
  // Lookup responses.
  // --------------------------------------------------------------------------

  lemma AttrHeadSize(hv: seq<Val>, pos: nat)
    requires TypedSeq(ATTR_HEAD, hv)
    ensures |EncSeq(ATTR_HEAD, hv, pos)| == 48
  {
    FixedExact(ATTR_HEAD, hv, pos);
    AttrHeadInit();
  }

  lemma NoOptionalParts(hv: seq<Val>, i: nat)
    requires |hv| == 9 && hv[MASK_AT] == N(COMMON_ALL) && 0 < i < |ATTR_PARTS|
    ensures !Holds(ATTR_PARTS[i].guard, hv)
  {
    assert !Bit(COMMON_ALL, META_DIST) && !Bit(COMMON_ALL, META_DFILES) && !Bit(COMMON_ALL, META_SINGLE_DFILE);
    assert !Bit(COMMON_ALL, DATA_SIZE) && !Bit(COMMON_ALL, SYMLINK_TARGET);
    assert !Bit(COMMON_ALL, DIRENT_COUNT) && !Bit(COMMON_ALL, DIR_HINT);
  }

  lemma RestAbsent(hv: seq<Val>, tv: seq<Val>, pos: nat)
    requires |hv| == 9 && hv[MASK_AT] == N(COMMON_ALL) && TypedSeq(Present(ATTR_PARTS[1..], hv), tv)
    ensures EncSeq(Present(ATTR_PARTS[1..], hv), tv, pos) == []
  {
    forall i | 0 <= i < |ATTR_PARTS[1..]| ensures !Holds(ATTR_PARTS[1..][i].guard, hv) {
      NoOptionalParts(hv, i + 1);
    }
    NothingPresent(ATTR_PARTS[1..], hv, tv, pos);
  }

  lemma CommonTailSize(hv: seq<Val>, tv: seq<Val>, pos: nat)
    requires |hv| == 9 && hv[MASK_AT] == N(COMMON_ALL) && TypedSeq(Present(ATTR_PARTS, hv), tv)
    ensures |EncSeq(Present(ATTR_PARTS, hv), tv, pos)| <= 8
  {
    var fs := Present(ATTR_PARTS, hv);
    assert fs[1..] == Present(ATTR_PARTS[1..], hv);
    var part := if Holds(ATTR_PARTS[0].guard, hv) then [I32, PAD] else [];
    assert fs[0] == Rec(part);
    FixedExact(part, tv[0].vs, pos);
    Pair(I32, PAD);
    RestAbsent(hv, tv[1..], pos + |Enc(fs[0], tv[0], pos)|);
  }

  // With only the common attributes, a metafile's stuffed size is all that can
  // follow the fixed part.
  lemma CommonAttrSize(v: Val)
    requires Typed(ATTR, v) && AttrNum(v, MASK_AT) == COMMON_ALL
    ensures AtMost(ATTR, v, 56)
  {
    var hv, tv := v.vs[0].vs, v.vs[1].vs;
    TypedSeqAt(ATTR_HEAD, hv, MASK_AT);
    forall p: nat ensures |Enc(ATTR, v, p)| <= 56 {
      AttrHeadSize(hv, p);
      CommonTailSize(hv, tv, p + 48);
    }
  }

  lemma {:induction false} LookupAt(table: seq<Entry>, k: nat)
    requires k < |table| && forall i :: 0 <= i < k ==> table[i].op != table[k].op
    ensures Lookup(table, table[k].op) == Some(table[k])
    decreases k
  {
    if k > 0 {
      LookupAt(table[1..], k - 1);
    }
  }

  const LIMIT_PATH_SEGMENT_COUNT := 40
  const HANDLES := Dep([PAD, U32], Counted(1, 0, [HANDLE], []))
  const ATTRS := Dep([PAD, U32], Counted(1, 0, [ATTR], []))

  lemma LookupBody()
    ensures RespBody(LOOKUP_PATH) == [HANDLES, ATTRS] && MaxResp(LOOKUP_PATH) == 32 + LIMIT_IOREQ_BYTES
  {
    LookupAt(LISTED_RESPONSES, LOOKUP_RESPONSE);
    assert LISTED_RESPONSES[LOOKUP_RESPONSE].op == LOOKUP_PATH;
    Pair(PAD, U32);
    Pair(HANDLES, ATTRS);
  }

  lemma HandlesSize(v: Val, pos: nat)
    requires Typed(HANDLES, v)
    ensures |Enc(HANDLES, v, pos)| <= 8 + |v.vs[1].vs| * 8
  {
    ArrayOf([PAD, U32], 1, HANDLE, v);
    var tv := v.vs[1].vs;
    forall i | 0 <= i < |tv| ensures AtMost(HANDLE, tv[i], 8) {
      TypedSeqAt(Copies(HANDLE, v.vs[0].vs[1].n), tv, i);
    }
    ArrayBound([PAD, U32], 1, HANDLE, v, pos, 8);
    Pair(PAD, U32);
  }

  lemma AttrsSize(v: Val, pos: nat)
    requires Typed(ATTRS, v)
    requires forall i :: 0 <= i < |v.vs[1].vs| ==> Typed(ATTR, v.vs[1].vs[i]) && AttrNum(v.vs[1].vs[i], MASK_AT) == COMMON_ALL
    ensures |Enc(ATTRS, v, pos)| <= 8 + |v.vs[1].vs| * 56
  {
    var tv := v.vs[1].vs;
    forall i | 0 <= i < |tv| ensures AtMost(ATTR, tv[i], 56) {
      CommonAttrSize(tv[i]);
    }
    ArrayBound([PAD, U32], 1, ATTR, v, pos, 56);
    Pair(PAD, U32);
  }

  lemma LookupResponseSize(v: Version, handles: Val, attrs: Val)
    requires Sendable(v) && Typed(HANDLES, handles) && Typed(ATTRS, attrs)
    ensures var r := Response(LOOKUP_PATH, 0, [handles, attrs]);
            && ValidResp(r)
            && var h := |Enc(HANDLES, handles, 16)|; |RespCells(v, r)| == 16 + h + |Enc(ATTRS, attrs, 16 + h)|
  {
    LookupBody();
    TwoFields(HANDLES, ATTRS, handles, attrs, 16);
    TwoFields(ENUM, ERROR, N(LOOKUP_PATH), N(0), 8);
    RespSize(v, Response(LOOKUP_PATH, 0, [handles, attrs]));
  }

  predicate WithinPathLimit(handles: Val, attrs: Val)
    requires Typed(HANDLES, handles) && Typed(ATTRS, attrs)
  {
    && |handles.vs[1].vs| <= LIMIT_PATH_SEGMENT_COUNT && |attrs.vs[1].vs| <= LIMIT_PATH_SEGMENT_COUNT
    && forall a :: a in attrs.vs[1].vs ==> Typed(ATTR, a) && AttrNum(a, MASK_AT) == COMMON_ALL
  }

  lemma LookupArraysSize(handles: Val, attrs: Val)
    requires Typed(HANDLES, handles) && Typed(ATTRS, attrs) && WithinPathLimit(handles, attrs)
    ensures var h := |Enc(HANDLES, handles, 16)|; h + |Enc(ATTRS, attrs, 16 + h)| <= 16 + 40 * 64
  {
    HandlesSize(handles, 16);
    AttrsSize(attrs, 16 + |Enc(HANDLES, handles, 16)|);
  }

  // A lookup response with a handle and the common attributes for every
  // segment of the longest path is well formed and fits.
  lemma LookupResponseFits(v: Version, handles: Val, attrs: Val)
    requires Sendable(v) && Typed(HANDLES, handles) && Typed(ATTRS, attrs) && WithinPathLimit(handles, attrs)
    ensures var r := Response(LOOKUP_PATH, 0, [handles, attrs]);
            ValidResp(r) && |RespCells(v, r)| <= MaxResp(LOOKUP_PATH)
  {
    LookupResponseSize(v, handles, attrs);
    LookupArraysSize(handles, attrs);
    LookupBody();
  }

  // --------------------------------------------------------------------------
  // A create request whose layout is too long.
  // --------------------------------------------------------------------------

  // The estimate made before a layout is written: every server name with its
  // length and terminator, without padding.
  function LayoutEstimate(servers: seq<seq<byte>>): nat {
    if servers == [] then 16 else LayoutEstimate(servers[..|servers| - 1]) + |servers[|servers| - 1]| + 5
  }

  method EstimateLayout(servers: seq<seq<byte>>) returns (tooLong: bool)
    ensures tooLong <==> LayoutEstimate(servers) > LIMIT_LAYOUT
  {
    var size, i := 16, 0;
    while i < |servers|
      invariant 0 <= i <= |servers| && size == LayoutEstimate(servers[..i])
    {
      size := size + |servers[i]| + 5;
      assert servers[..i + 1][..i] == servers[..i];
      i := i + 1;
    }
    assert servers[..i] == servers;
    tooLong := size > LIMIT_LAYOUT;
  }

  predicate Names(vs: seq<Val>, servers: seq<seq<byte>>) {
    |vs| == |servers| && forall i :: 0 <= i < |vs| ==> vs[i] == B(servers[i]) && IsString(servers[i])
  }

  lemma OneMore(vs: seq<Val>, s: seq<byte>, pos: nat)
    requires TypedSeq(Copies(Str, |vs|), vs) && IsString(s)
    ensures TypedSeq(Copies(Str, |vs| + 1), vs + [B(s)])
    ensures |EncSeq(Copies(Str, |vs| + 1), vs + [B(s)], pos)| == |EncSeq(Copies(Str, |vs|), vs, pos)| + StrSize(|s|)
  {
    assert Copies(Str, |vs| + 1) == Copies(Str, |vs|) + [Str];
    OneField(Str, B(s), pos + |EncSeq(Copies(Str, |vs|), vs, pos)|);
    EncAppend(Copies(Str, |vs|), vs, [Str], [B(s)], pos);
  }

  lemma {:induction false} NamesSize(vs: seq<Val>, servers: seq<seq<byte>>, pos: nat)
    requires Names(vs, servers)
    ensures TypedSeq(Copies(Str, |vs|), vs)
    ensures LayoutEstimate(servers) <= 16 + |EncSeq(Copies(Str, |vs|), vs, pos)| <= LayoutEstimate(servers) + 7 * |servers|
    decreases |vs|
  {
    if vs == [] {
    } else {
      var n := |vs| - 1;
      NamesSize(vs[..n], servers[..n], pos);
      OneMore(vs[..n], servers[n], pos);
      assert vs == vs[..n] + [B(servers[n])];
    }
  }

  // The estimate against what encoding the layout takes: it counts everything
  // but the padding, so it is never too high, and short by less than eight
  // bytes for each server.
  lemma EstimateIsBelowSize(layout: Val, servers: seq<seq<byte>>, pos: nat)
    requires Typed(LAYOUT, layout) && Names(layout.vs[1].vs, servers)
    ensures LayoutEstimate(servers) <= |Enc(LAYOUT, layout, pos)| <= LayoutEstimate(servers) + 7 * |servers|
  {
    var hv, tv := layout.vs[0].vs, layout.vs[1].vs;
    var head := [ENUM, PAD, I32, PAD];
    ArrayOf(head, 2, Str, layout);
    FixedExact(head, hv, pos);
    Four(ENUM, PAD, I32, PAD);
    NamesSize(tv, servers, pos + 16);
  }

  const BEFORE_LAYOUT := [FS_ID, PAD, ATTR, I32]

  // Where the cursor stands after a layout that is too long: nothing of it is
  // written, and the cursor is moved by the room for attribute and layout and
  // one byte more, so that the size check at the end should fail.
  function OversizeTotal(r: Request, prefix: seq<Val>): nat
    requires Typed(HINTS, r.hints) && TypedSeq(BEFORE_LAYOUT, prefix)
  {
    var hints := |Enc(HINTS, r.hints, 24)|;
    24 + hints + |EncSeq(BEFORE_LAYOUT, prefix, 24 + hints)| + CREATE_EXTRA + 1
  }

  // One field of any layout among three of fixed width.
  lemma AmongFixed(a: Field, b: Field, f: Field, c: Field, vs: seq<Val>, pos: nat)
    requires IsFixed(a) && IsFixed(b) && IsFixed(c) && TypedSeq([a, b, f, c], vs)
    ensures |vs| == 4 && Typed(f, vs[2])
    ensures |EncSeq([a, b, f, c], vs, pos)| ==
            InitSize(a) + InitSize(b) + InitSize(c) + |Enc(f, vs[2], pos + InitSize(a) + InitSize(b))|
  {
    var rest := [f, c];
    assert [a, b, f, c] == [a, b] + rest && vs == vs[..2] + vs[2..];
    EncAppend([a, b], vs[..2], rest, vs[2..], pos);
    FixedExact([a, b], vs[..2], pos);
    Pair(a, b);
    assert rest == [f] + [c] && vs[2..] == [vs[2]] + [vs[3]];
    LastFixed(f, c, vs[2], vs[3], pos + InitSize(a) + InitSize(b));
  }

  lemma LastFixed(f: Field, c: Field, v: Val, w: Val, pos: nat)
    requires IsFixed(c) && TypedSeq([f] + [c], [v] + [w])
    ensures Typed(f, v) && |EncSeq([f] + [c], [v] + [w], pos)| == |Enc(f, v, pos)| + InitSize(c)
  {
    EncAppend([f], [v], [c], [w], pos);
    FixedExact([c], [w], pos + |Enc(f, v, pos)|);
    Single(c, NO_LIMITS);
    assert |EncSeq([f], [v], pos)| == |Enc(f, v, pos)|;
  }

  lemma {:induction false} NotListed(table: seq<Entry>, op: int)
    requires forall i :: 0 <= i < |table| ==> table[i].op != op
    ensures Lookup(table, op) == None
    decreases |table|
  {
    if table != [] { NotListed(table[1..], op); }
  }

  lemma CreateLimit()
    ensures MaxReq(CREATE) == 24 + HINT_ROOM + 76 + CREATE_EXTRA
  {
    NotListed(NAMED, CREATE);
    NotListed(LISTED, CREATE);
    assert ReqEntry(CREATE) == OTHERS[0];
    var a := [FS_ID, PAD, ATTR, I32];
    assert OTHERS[0].fields == a + [LAYOUT];
    Four(FS_ID, PAD, ATTR, I32);
    Single(LAYOUT, NO_LIMITS);
    RoomAppend(a, [LAYOUT], NO_LIMITS);
    AttrHeadInit();
    InitWhen(ATTR_HEAD, ATTR_PARTS);
    Four(ENUM, PAD, I32, PAD);
  }

  lemma AttrHeadInit()
    ensures InitSizeSeq(ATTR_HEAD) == 48
  {
    var a, b := [U32, U32, U32, PAD], [I64, I64, I64, U32];
    assert ATTR_HEAD == a + b + [ENUM];
    Four(U32, U32, U32, PAD);
    Four(I64, I64, I64, U32);
    Single(ENUM, NO_LIMITS);
    RoomAppend(a, b, NO_LIMITS);
    RoomAppend(a + b, [ENUM], NO_LIMITS);
  }

  lemma InitWhen(head: seq<Field>, parts: seq<Part>)
    ensures InitSize(Dep(head, When(parts))) == InitSizeSeq(head)
  {
  }

  // The room kept for hints hides the overflow: it is reported exactly when
  // hints and attribute together take more than 547 bytes.
  lemma OversizeReportedIff(r: Request, prefix: seq<Val>)
    requires Typed(HINTS, r.hints) && TypedSeq(BEFORE_LAYOUT, prefix)
    ensures |prefix| == 4 && Typed(ATTR, prefix[2])
    ensures var hints := |Enc(HINTS, r.hints, 24)|;
            OversizeTotal(r, prefix) > MaxReq(CREATE) <==> hints + |Enc(ATTR, prefix[2], 32 + hints)| > 547
  {
    CreateLimit();
    AmongFixed(FS_ID, PAD, ATTR, I32, prefix, 24 + |Enc(HINTS, r.hints, 24)|);
  }

  // In particular it is never reported for a request whose attribute carries
  // only the common fields and whose hints keep to their room.
  lemma OversizeMissed(r: Request, prefix: seq<Val>)
    requires Typed(HINTS, r.hints) && |Enc(HINTS, r.hints, 24)| <= HINT_ROOM
    requires TypedSeq(BEFORE_LAYOUT, prefix) && |prefix| == 4
    requires Typed(ATTR, prefix[2]) && AttrNum(prefix[2], MASK_AT) == COMMON_ALL
    ensures OversizeTotal(r, prefix) <= MaxReq(CREATE)
  {
    OversizeReportedIff(r, prefix);
    CommonAttrSize(prefix[2]);
  }
}
