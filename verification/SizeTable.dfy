// The table of largest sizes: how the initialiser fills it by encoding one
// message of every operation, and that no message within its limits exceeds it.

module SizeTable {
  import opened Wire
  import opened Encoder
  import opened Sizes
  import opened Messages
  import opened Protocol

  // --------------------------------------------------------------------------
  // The messages that are measured.
  // --------------------------------------------------------------------------

  // A layout's zeroed value. A distribution is looked up by name, so its name is
  // that of the first one registered.
  function ZeroHead(head: seq<Field>, kind: Kind): seq<Val>
    decreases HeightSeq(head), 2 + |head|
  {
    if kind.OneOf? && kind.parts != [] && kind.parts[0].guard.Named? then [B(kind.parts[0].guard.name)] else ZeroSeq(head)
  }

  function Zero(f: Field): Val
    decreases Height(f), 0
  {
    match f
    case Num(_, _) => N(0)
    case Skip(_) => Unit
    case Align => Unit
    case Str => B([])
    case KeyVal => B([])
    case Raw(n) => B(seq(n, _ => 0))
    case Rec(fields) => T(ZeroSeq(fields))
    case Dep(head, kind) =>
      var hv := ZeroHead(head, kind);
      var tail := TailOf(head, kind, hv);
      T([T(hv), T(if tail.Some? then ZeroSeq(tail.value) else [])])
  }

  function ZeroSeq(fs: seq<Field>): (r: seq<Val>)
    ensures |r| == |fs|
    decreases HeightSeq(fs), 1 + |fs|
  {
    if fs == [] then [] else [Zero(fs[0])] + ZeroSeq(fs[1..])
  }

  // Layouts of which the zeroed value is one.
  predicate Zeroable(f: Field)
    decreases Height(f), 0
  {
    match f
    case Rec(fields) => ZeroableSeq(fields)
    case Dep(head, kind) =>
      var hv := ZeroHead(head, kind);
      && TypedSeq(head, hv) && (ZeroableSeq(head) || kind.OneOf?)
      && TailOf(head, kind, hv).Some? && ZeroableSeq(TailOf(head, kind, hv).value)
      && (kind.When? ==> forall i :: 0 <= i < |kind.parts| ==> !Holds(kind.parts[i].guard, hv))
      && (kind.Payload? ==> TailOf(head, kind, hv).value == [])
    case _ => true
  }

  predicate ZeroableSeq(fs: seq<Field>)
    decreases HeightSeq(fs), 1 + |fs|
  {
    fs == [] || (Zeroable(fs[0]) && ZeroableSeq(fs[1..]))
  }

  lemma {:induction false} ZeroTyped(f: Field)
    requires Zeroable(f)
    ensures Typed(f, Zero(f))
    decreases Height(f), 0
  {
    match f
    case Rec(fields) => ZeroTypedSeq(fields);
    case Dep(head, kind) => ZeroTypedSeq(TailOf(head, kind, ZeroHead(head, kind)).value);
    case _ =>
  }

  lemma {:induction false} ZeroTypedSeq(fs: seq<Field>)
    requires ZeroableSeq(fs)
    ensures TypedSeq(fs, ZeroSeq(fs))
    decreases HeightSeq(fs), 1 + |fs|
  {
    if fs != [] {
      ZeroTyped(fs[0]);
      ZeroTypedSeq(fs[1..]);
      assert ZeroSeq(fs)[1..] == ZeroSeq(fs[1..]);
    }
  }

  lemma {:induction false} ZeroInitial(f: Field)
    requires Zeroable(f) && Plain(f)
    ensures Typed(f, Zero(f)) && Initial(f, Zero(f))
    decreases Height(f), 1
  {
    ZeroTyped(f);
    match f
    case Rec(fields) => ZeroInitialSeq(fields);
    case Dep(head, kind) =>
      ZeroInitialSeq(head);
      ZeroInitialTail(head, kind);
    case _ =>
  }

  lemma {:induction false} ZeroInitialTail(head: seq<Field>, kind: Kind)
    requires Zeroable(Dep(head, kind)) && Plain(Dep(head, kind))
    ensures var tail := TailOf(head, kind, ZeroSeq(head)).value;
            TypedSeq(tail, ZeroSeq(tail)) && InitialSeq(tail, ZeroSeq(tail))
    ensures kind.Counted? ==> ZeroSeq(head)[kind.at] == N(0)
    decreases Height(Dep(head, kind)), 0
  {
    var tail := TailOf(head, kind, ZeroSeq(head)).value;
    match kind
    case Counted(at, _, groups, after) =>
      ZeroAt(head, at);
      NoGroups(groups, 0);
      assert tail == after;
      ZeroInitialSeq(after);
    case When(parts) =>
      EmptyParts(parts, ZeroSeq(head));
    case Payload(_, _, _) =>
  }

  lemma {:induction false} ZeroInitialSeq(fs: seq<Field>)
    requires ZeroableSeq(fs) && PlainSeq(fs)
    ensures TypedSeq(fs, ZeroSeq(fs)) && InitialSeq(fs, ZeroSeq(fs))
    decreases HeightSeq(fs), 1 + |fs|
  {
    ZeroTypedSeq(fs);
    if fs != [] {
      ZeroInitial(fs[0]);
      ZeroInitialSeq(fs[1..]);
      assert ZeroSeq(fs)[1..] == ZeroSeq(fs[1..]);
    }
  }

  lemma {:induction false} ZeroAt(fs: seq<Field>, i: nat)
    requires i < |fs|
    ensures ZeroSeq(fs)[i] == Zero(fs[i])
    decreases |fs|
  {
    if i > 0 {
      ZeroAt(fs[1..], i - 1);
    }
  }

  // Parts of which none is present.
  lemma {:induction false} EmptyParts(parts: seq<Part>, hv: seq<Val>)
    requires forall i :: 0 <= i < |parts| ==> !Holds(parts[i].guard, hv)
    ensures var fs := Present(parts, hv);
            ZeroableSeq(fs) && TypedSeq(fs, ZeroSeq(fs)) && InitialSeq(fs, ZeroSeq(fs))
    decreases |parts|
  {
    var fs := Present(parts, hv);
    if parts != [] {
      assert fs[0] == Rec([]) && fs[1..] == Present(parts[1..], hv);
      EmptyParts(parts[1..], hv);
      assert ZeroableSeq([]) && TypedSeq([], []) && InitialSeq([], []);
      assert Zeroable(fs[0]) && Zero(fs[0]) == T([]) && Typed(fs[0], T([])) && Initial(fs[0], T([]));
      assert ZeroSeq(fs)[1..] == ZeroSeq(fs[1..]);
    }
  }

  // --------------------------------------------------------------------------
  // Every operation's layout has a zeroed value.
  // --------------------------------------------------------------------------

  predicate Simple(f: Field) { f.Num? || f.Skip? || f.Str? || f.KeyVal? }

  lemma {:induction false} AllZeroable(fs: seq<Field>)
    requires forall i :: 0 <= i < |fs| ==> Simple(fs[i]) || Zeroable(fs[i])
    ensures ZeroableSeq(fs) && TypedSeq(fs, ZeroSeq(fs))
    decreases |fs|
  {
    if fs != [] {
      AllZeroable(fs[1..]);
    }
    ZeroTypedSeq(fs);
  }

  lemma {:induction false} AllPlain(fs: seq<Field>)
    requires forall i :: 0 <= i < |fs| ==> Simple(fs[i]) || Plain(fs[i])
    ensures PlainSeq(fs)
    decreases |fs|
  {
    if fs != [] {
      AllPlain(fs[1..]);
    }
  }

  predicate AllSimple(fs: seq<Field>) { forall i :: 0 <= i < |fs| ==> Simple(fs[i]) }

  // An array behind a simple head.
  lemma ArrayZeroable(head: seq<Field>, at: nat, groups: seq<Field>, after: seq<Field>)
    requires AllSimple(head) && AllSimple(after) && at < |head| && head[at].Num?
    ensures var f := Dep(head, Counted(at, 0, groups, after)); Zeroable(f) && Plain(f)
  {
    var f := Dep(head, Counted(at, 0, groups, after));
    AllZeroable(head);
    AllZeroable(after);
    AllPlain(head);
    AllPlain(after);
    ZeroAt(head, at);
    NoGroups(groups, 0);
    assert TailOf(head, f.kind, ZeroSeq(head)).value == after;
  }

  lemma PayloadZeroable(head: seq<Field>, ty: nat, only: int, total: nat)
    requires ZeroableSeq(head) && ty < |head| && head[ty].Num? && only != 0
    ensures Zeroable(Dep(head, Payload(ty, only, total)))
  {
    ZeroTypedSeq(head);
    ZeroAt(head, ty);
  }

  lemma ZeroGuards(i: nat)
    requires i < |ATTR_PARTS|
    ensures !Holds(ATTR_PARTS[i].guard, ZeroSeq(ATTR_HEAD))
  {
    ZeroAt(ATTR_HEAD, MASK_AT);
    ZeroAt(ATTR_HEAD, TYPE_AT);
  }

  lemma AttrZeroable()
    ensures Zeroable(ATTR) && Plain(ATTR)
  {
    AllZeroable(ATTR_HEAD);
    AllPlain(ATTR_HEAD);
    var hv := ZeroSeq(ATTR_HEAD);
    forall i | 0 <= i < |ATTR_PARTS| ensures !Holds(ATTR_PARTS[i].guard, hv) {
      ZeroGuards(i);
    }
    EmptyParts(ATTR_PARTS, hv);
  }

  lemma DistZeroable()
    ensures Zeroable(DIST)
  {
    var hv := [B(BASIC_DIST)];
    assert Pow256(4) >= 256 by { assert Pow256(4) == 256 * Pow256(3); }
    OneField(Str, B(BASIC_DIST), 0);
    FirstIs(DIST.kind.parts, hv, 0);
    AllZeroable([Align]);
  }

  // An array that always has one element more than its count.
  lemma OneMoreZeroable(head: seq<Field>, at: nat, elem: Field)
    requires AllSimple(head) && at < |head| && head[at].Num? && Zeroable(elem)
    ensures Zeroable(Dep(head, Counted(at, 1, [elem], [])))
  {
    AllZeroable(head);
    ZeroAt(head, at);
    assert Groups([elem][1..], 1) == [] && Copies(elem, 1) == [elem];
    assert TailOf(head, Counted(at, 1, [elem], []), ZeroSeq(head)).value == [elem];
    AllZeroable([elem]);
  }

  lemma RecordZeroable()
    ensures Zeroable(REQUEST_RECORD)
  {
    AllZeroable(REQUEST_RECORD.fields);
  }

  lemma RequestZeroable()
    ensures Zeroable(PINT_REQUEST)
  {
    RecordZeroable();
    OneMoreZeroable([I32, PAD], 0, REQUEST_RECORD);
  }

  lemma ParamZeroable()
    ensures Zeroable(PARAM_VALUE)
  {
    AllZeroable([ENUM]);
    ZeroAt([ENUM], 0);
    FirstIs(PARAM_VALUE.kind.parts, ZeroSeq([ENUM]), 0);
    AllZeroable([U64]);
  }

  lemma NamedZeroable(k: nat)
    requires k < |NAMED|
    ensures ZeroableSeq(NAMED[k].fields) && PlainSeq(NAMED[k].fields)
  {
    AllZeroable(NAMED[k].fields);
    AllPlain(NAMED[k].fields);
  }

  lemma ListedZeroable(k: nat)
    requires k < |LISTED|
    ensures ZeroableSeq(LISTED[k].fields) && PlainSeq(LISTED[k].fields)
  {
    var fs := LISTED[k].fields;
    var f := fs[if k == 3 then 4 else 0];
    ArrayZeroable(f.head, f.kind.at, f.kind.groups, []);
    AllZeroable(fs);
    AllPlain(fs);
  }

  lemma ListedResponseZeroable(k: nat)
    requires k < LOOKUP_RESPONSE
    ensures ZeroableSeq(LISTED_RESPONSES[k].fields) && PlainSeq(LISTED_RESPONSES[k].fields)
  {
    var fs := LISTED_RESPONSES[k].fields;
    if k != 1 {
      ArrayZeroable(fs[0].head, fs[0].kind.at, fs[0].kind.groups, []);
    }
    AllZeroable(fs);
    AllPlain(fs);
  }

  lemma CreateZeroable()
    ensures ZeroableSeq(OTHERS[0].fields) && PlainSeq(OTHERS[0].fields)
  {
    AttrZeroable();
    ArrayZeroable([ENUM, PAD, I32, PAD], 2, [Str], []);
    AllZeroable([FS_ID, PAD, ATTR, I32, LAYOUT]);
    AllPlain([FS_ID, PAD, ATTR, I32, LAYOUT]);
  }

  // Requests for I/O, with their distribution and their description.
  lemma IoZeroable()
    ensures ZeroableSeq(OTHERS[2].fields)
  {
    DistZeroable();
    RequestZeroable();
    AllZeroable(OTHERS[2].fields);
  }

  lemma SmallIoHeadZeroable()
    ensures ZeroableSeq(OTHERS[18].fields[0].head)
  {
    DistZeroable();
    RequestZeroable();
    AllZeroable(OTHERS[18].fields[0].head);
  }

  lemma SmallIoZeroable()
    ensures ZeroableSeq(OTHERS[18].fields)
  {
    var f := OTHERS[18].fields[0];
    SmallIoHeadZeroable();
    PayloadZeroable(f.head, 2, IO_WRITE, 9);
    AllZeroable([f]);
  }

  // Requests with one layout that is not simple.
  lemma NestedZeroable(k: nat)
    requires k in {4, 6, 9}
    ensures ZeroableSeq(OTHERS[k].fields)
  {
    AttrZeroable();
    ParamZeroable();
    ArrayZeroable([PAD, U32], 1, [Rec([HANDLE, HANDLE])], []);
    AllZeroable(OTHERS[k].fields);
  }

  lemma ExtendedAttrZeroable(k: nat)
    requires k in {16, 17}
    ensures ZeroableSeq(OTHERS[k].fields)
  {
    var f := OTHERS[k].fields[0];
    ArrayZeroable(f.head, f.kind.at, f.kind.groups, []);
    AllZeroable(OTHERS[k].fields);
  }

  lemma OthersZeroable(k: nat)
    requires k < |OTHERS|
    ensures ZeroableSeq(OTHERS[k].fields)
  {
    if k == 0 {
      CreateZeroable();
    } else if k == 2 {
      IoZeroable();
    } else if k == 18 {
      SmallIoZeroable();
    } else if k in {4, 6, 9} {
      NestedZeroable(k);
    } else if k in {16, 17} {
      ExtendedAttrZeroable(k);
    } else {
      AllZeroable(OTHERS[k].fields);
    }
  }

  lemma LookupZeroable()
    ensures ZeroableSeq(LISTED_RESPONSES[6].fields) && PlainSeq(LISTED_RESPONSES[6].fields)
  {
    ArrayZeroable([PAD, U32], 1, [HANDLE], []);
    ArrayZeroable([PAD, U32], 1, [ATTR], []);
    AllZeroable(LISTED_RESPONSES[6].fields);
    AllPlain(LISTED_RESPONSES[6].fields);
  }

  lemma OtherResponsesZeroable(k: nat)
    requires k < |OTHER_RESPONSES|
    ensures ZeroableSeq(OTHER_RESPONSES[k].fields)
  {
    var fs := OTHER_RESPONSES[k].fields;
    AttrZeroable();
    if k in {5, 8, 10, 11, 13} {
      ArrayZeroable(fs[0].head, fs[0].kind.at, fs[0].kind.groups, []);
    } else if k == 7 {
      AllZeroable(STATFS.fields);
    } else if k == 12 {
      AllZeroable([ENUM, PAD, SIZE, SIZE]);
      PayloadZeroable([ENUM, PAD, SIZE, SIZE], 0, IO_READ, 3);
    }
    AllZeroable(fs);
  }

  lemma {:induction false} LookupIn(table: seq<Entry>, op: int) returns (k: nat)
    requires Lookup(table, op).Some?
    ensures k < |table| && Lookup(table, op).value == table[k] && table[k].op == op
    decreases |table|
  {
    if table[0].op == op {
      k := 0;
    } else {
      k := LookupIn(table[1..], op);
      k := k + 1;
    }
  }

  lemma ReqZeroable(op: int)
    ensures ZeroableSeq(ReqBody(op))
  {
    if Lookup(NAMED, op).Some? {
      var k := LookupIn(NAMED, op);
      NamedZeroable(k);
    } else if Lookup(LISTED, op).Some? {
      var k := LookupIn(LISTED, op);
      ListedZeroable(k);
    } else if Lookup(OTHERS, op).Some? {
      var k := LookupIn(OTHERS, op);
      OthersZeroable(k);
    } else {
      AllZeroable([]);
    }
  }

  lemma RespZeroable(op: int)
    ensures ZeroableSeq(RespBody(op))
  {
    if Lookup(LISTED_RESPONSES, op).Some? {
      var k := LookupIn(LISTED_RESPONSES, op);
      if k == LOOKUP_RESPONSE {
        LookupZeroable();
      } else {
        ListedResponseZeroable(k);
      }
    } else if Lookup(OTHER_RESPONSES, op).Some? {
      var k := LookupIn(OTHER_RESPONSES, op);
      OtherResponsesZeroable(k);
    } else {
      AllZeroable([]);
    }
  }

  // Operations whose requests and responses are bounded by a stated limit.
  predicate LimitedReq(op: int) { ReqEntry(op) in NAMED || ReqEntry(op) in LISTED }
  predicate LimitedResp(op: int) { RespEntry(op) in LISTED_RESPONSES[..LOOKUP_RESPONSE] }

  lemma LimitedPlain(op: int)
    ensures LimitedReq(op) ==> PlainSeq(ReqBody(op))
    ensures LimitedResp(op) ==> PlainSeq(RespBody(op))
  {
    if k :| 0 <= k < |NAMED| && ReqEntry(op) == NAMED[k] {
      NamedZeroable(k);
    } else if k :| 0 <= k < |LISTED| && ReqEntry(op) == LISTED[k] {
      ListedZeroable(k);
    }
    if k :| 0 <= k < LOOKUP_RESPONSE && RespEntry(op) == LISTED_RESPONSES[k] {
      ListedResponseZeroable(k);
    }
  }

  lemma EntryOps(op: int)
    ensures ReqEntry(op).op == op && RespEntry(op).op == op
  {
    if Lookup(NAMED, op).Some? {
      var k := LookupIn(NAMED, op);
    } else if Lookup(LISTED, op).Some? {
      var k := LookupIn(LISTED, op);
    } else if Lookup(OTHERS, op).Some? {
      var k := LookupIn(OTHERS, op);
    }
    if Lookup(LISTED_RESPONSES, op).Some? {
      var k := LookupIn(LISTED_RESPONSES, op);
    } else if Lookup(OTHER_RESPONSES, op).Some? {
      var k := LookupIn(OTHER_RESPONSES, op);
    }
  }

  predicate Travels(op: int) { !Internal(op) && op != WRITE_COMPLETION }

  lemma TablesTravel(k: nat)
    ensures k < |NAMED| ==> Travels(NAMED[k].op)
    ensures k < |LISTED| ==> Travels(LISTED[k].op)
    ensures k < |LISTED_RESPONSES| ==> Travels(LISTED_RESPONSES[k].op)
  {
  }

  lemma LimitedTravels(op: int)
    requires LimitedReq(op) || LimitedResp(op)
    ensures Travels(op)
  {
    EntryOps(op);
    if k :| 0 <= k < |NAMED| && ReqEntry(op) == NAMED[k] {
      TablesTravel(k);
    } else if k :| 0 <= k < |LISTED| && ReqEntry(op) == LISTED[k] {
      TablesTravel(k);
    } else {
      var k :| 0 <= k < LOOKUP_RESPONSE && RespEntry(op) == LISTED_RESPONSES[k];
      TablesTravel(k);
    }
  }

  // --------------------------------------------------------------------------
  // Filling the table.
  // --------------------------------------------------------------------------

  // The messages that are measured: all hints there can be, and a zeroed body.
  // Names are empty here; one of up to three letters takes the same room.
  function InitialRequest(op: int): Request { Request(op, 0, 0, MAX_HINTS, ZeroSeq(ReqBody(op))) }
  function InitialResponse(op: int): Response { Response(op, 0, ZeroSeq(RespBody(op))) }

  lemma InitialRequestValid(op: int)
    requires 0 <= op < NUM_OPS
    ensures ValidReq(InitialRequest(op))
  {
    ReqZeroable(op);
    ZeroTypedSeq(ReqBody(op));
    assert Pow256(4) >= 256 by { assert Pow256(4) == 256 * Pow256(3); }
    EmptyHintsSize(HINT_MAX, 0);
    NoMoreGroups(HINT, HINT_MAX);
    OneField(I32, N(HINT_MAX), 0);
    assert Typed(HINTS, MAX_HINTS);
    AllTyped(REQ_HEAD, ReqHeadValues(InitialRequest(op)));
  }

  lemma InitialResponseValid(op: int)
    requires 0 <= op < NUM_OPS
    ensures ValidResp(InitialResponse(op))
  {
    RespZeroable(op);
    ZeroTypedSeq(RespBody(op));
    assert Pow256(4) >= 256 by { assert Pow256(4) == 256 * Pow256(3); }
    TwoFields(ENUM, ERROR, N(op), N(0), 0);
  }

  datatype MaxSize = MaxSize(req: int, resp: int)

  // What the table says of an operation, as far as the layouts alone decide it.
  predicate Recorded(m: MaxSize, op: int) {
    && (PlainSeq(ReqBody(op)) && op != WRITE_COMPLETION ==> m.req == MaxReq(op))
    && (PlainSeq(RespBody(op)) ==> m.resp == MaxResp(op))
  }

  lemma CreatePlain()
    ensures PlainSeq(ReqBody(CREATE))
  {
    NotListed(NAMED, CREATE);
    NotListed(LISTED, CREATE);
    assert ReqEntry(CREATE) == OTHERS[0];
    CreateZeroable();
  }

  lemma LookupPlain()
    ensures PlainSeq(RespBody(LOOKUP_PATH))
  {
    LookupBody();
    ArrayZeroable([PAD, U32], 1, [HANDLE], []);
    ArrayZeroable([PAD, U32], 1, [ATTR], []);
    AllPlain([HANDLES, ATTRS]);
  }

  // The limits that the results on lookup responses and on oversize layouts are
  // about are those in the table.
  lemma LookupAndCreateRecorded(lookup: MaxSize, create: MaxSize)
    requires Recorded(lookup, LOOKUP_PATH) && Recorded(create, CREATE)
    ensures lookup.resp == MaxResp(LOOKUP_PATH) && create.req == MaxReq(CREATE)
  {
    LookupPlain();
    CreatePlain();
  }

  const BIG_SIZE := 0x10_0000

  class Codec {
    const max: array<MaxSize>

    ghost predicate Initialized()
      reads max
    {
      max.Length == NUM_OPS && forall op :: 0 <= op < NUM_OPS && !Internal(op) ==> Recorded(max[op], op)
    }

    // Encodes one message of every operation that travels, and adds the room for
    // what is variable in it.
    constructor (v: Version)
      requires Sendable(v)
      ensures Initialized() && fresh(max)
    {
      max := new MaxSize[NUM_OPS](_ => MaxSize(0, 0));
      new;
      var op := 0;
      while op < NUM_OPS
        invariant 0 <= op <= NUM_OPS && fresh(max)
        invariant forall i :: 0 <= i < op && !Internal(i) ==> Recorded(max[i], i)
      {
        if !Internal(op) {
          var m := Measure(v, op);
          max[op] := m;
        }
        op := op + 1;
      }
    }

    // An encoded request is never refused as too long if it carries one name, key
    // or array within its limit, and hints that keep to their room.
    method EncodeRequest(buf: array<byte>, v: Version, r: Request) returns (total: nat, code: Code)
      requires Initialized() && 0 <= r.op < NUM_OPS
      requires Sendable(v) && ValidReq(r) && |ReqCells(v, r)| <= buf.Length
      modifies buf
      ensures Initialized() && buf[..] == Overlay(old(buf[..]), 0, ReqCells(v, r)) && total == |ReqCells(v, r)|
      ensures code == EncodeCode(!Internal(r.op) && r.op != WRITE_COMPLETION, total, max[r.op].req)
      ensures RequestWithin(r) ==> code == Encoded
    {
      if RequestWithin(r) {
        RequestEncoded(v, r);
      }
      total, code := Protocol.EncodeRequest(buf, v, r, max[r.op].req);
    }

    method EncodeResponse(buf: array<byte>, v: Version, r: Response) returns (total: nat, code: Code)
      requires Initialized() && 0 <= r.op < NUM_OPS
      requires Sendable(v) && ValidResp(r) && |RespCells(v, r)| <= buf.Length
      modifies buf
      ensures Initialized() && buf[..] == Overlay(old(buf[..]), 0, RespCells(v, r)) && total == |RespCells(v, r)|
      ensures code == EncodeCode(r.status != 0 || !Internal(r.op), total, max[r.op].resp)
      ensures ResponseWithin(r) ==> code == Encoded
    {
      if ResponseWithin(r) {
        ResponseEncoded(v, r);
      }
      total, code := Protocol.EncodeResponse(buf, v, r, max[r.op].resp);
    }
  }

  method Measure(v: Version, op: int) returns (m: MaxSize)
    requires Sendable(v) && 0 <= op < NUM_OPS && !Internal(op)
    ensures Recorded(m, op)
  {
    InitialRequestValid(op);
    InitialResponseValid(op);
    var req, resp := InitialRequest(op), InitialResponse(op);
    var reqSize := 0;
    if op != WRITE_COMPLETION {
      var buf := new byte[Max(BIG_SIZE, |ReqCells(v, req)|)](_ => 0);
      var size, _ := Protocol.EncodeRequest(buf, v, req, BIG_SIZE);
      reqSize := ReqEntry(op).extra + size;
    }
    var buf := new byte[Max(BIG_SIZE, |RespCells(v, resp)|)](_ => 0);
    var respSize, _ := Protocol.EncodeResponse(buf, v, resp, BIG_SIZE);
    m := MaxSize(reqSize, RespEntry(op).extra + respSize);
    MeasuredSizes(v, op);
  }

  lemma MeasuredSizes(v: Version, op: int)
    requires Sendable(v) && 0 <= op < NUM_OPS
    ensures ValidReq(InitialRequest(op)) && ValidResp(InitialResponse(op))
    ensures PlainSeq(ReqBody(op)) ==> ReqEntry(op).extra + |ReqCells(v, InitialRequest(op))| == MaxReq(op)
    ensures PlainSeq(RespBody(op)) ==> RespEntry(op).extra + |RespCells(v, InitialResponse(op))| == MaxResp(op)
  {
    InitialRequestValid(op);
    InitialResponseValid(op);
    if PlainSeq(ReqBody(op)) {
      ReqZeroable(op);
      ZeroInitialSeq(ReqBody(op));
      InitialReqSize(v, InitialRequest(op));
    }
    if PlainSeq(RespBody(op)) {
      RespZeroable(op);
      ZeroInitialSeq(RespBody(op));
      InitialRespSize(v, InitialResponse(op));
    }
  }

  predicate RequestWithin(r: Request) {
    && ValidReq(r) && LimitedReq(r.op) && WithinSeq(ReqBody(r.op), r.body, ReqEntry(r.op).limits)
    && Typed(HINTS, r.hints) && |Enc(HINTS, r.hints, 24)| <= HINT_ROOM
  }

  predicate ResponseWithin(r: Response) {
    && ValidResp(r) && LimitedResp(r.op)
    && (r.status == 0 ==> WithinSeq(RespBody(r.op), r.body, RespEntry(r.op).limits))
  }

  lemma RequestEncoded(v: Version, r: Request)
    requires Sendable(v) && RequestWithin(r) && 0 <= r.op < NUM_OPS
    ensures PlainSeq(ReqBody(r.op)) && Travels(r.op)
    ensures EncodeCode(true, |ReqCells(v, r)|, MaxReq(r.op)) == Encoded
  {
    LimitedPlain(r.op);
    LimitedTravels(r.op);
    RequestFits(v, r);
  }

  lemma ResponseEncoded(v: Version, r: Response)
    requires Sendable(v) && ResponseWithin(r) && 0 <= r.op < NUM_OPS
    ensures PlainSeq(RespBody(r.op)) && Travels(r.op)
    ensures EncodeCode(true, |RespCells(v, r)|, MaxResp(r.op)) == Encoded
  {
    LimitedPlain(r.op);
    LimitedTravels(r.op);
    ResponseFits(v, r);
  }
}
