// The answer of a path lookup as a message: what the machine builds, the codec
// can send.

module LookupReply {
  import opened Wire
  import opened Sizes
  import opened Messages
  import opened Protocol
  import L = Lookup

  function TypeCode(k: L.Kind): int {
    match k
    case Metafile => TYPE_METAFILE
    case Directory => 4
    case Symlink => 8
    case Other => 2
  }

  // The machine marks every attribute as carrying the common fields only; a
  // metafile's stuffed size travels nevertheless.
  function AttrValue(a: L.Attr): Val {
    T([T([N(a.owner), N(a.group), N(a.perms), Unit, N(a.atime), N(a.mtime), N(a.ctime), N(COMMON_ALL), N(TypeCode(a.kind))]),
       T([T(if a.kind == L.Metafile then [N(a.stuffedSize), Unit] else []), T([]), T([]), T([]), T([]), T([]), T([])])])
  }

  // Stored attributes fit their fields.
  predicate Storable(a: L.Attr) {
    && InRange(4, false, a.owner) && InRange(4, false, a.group) && InRange(4, false, a.perms)
    && InRange(8, true, a.atime) && InRange(8, true, a.mtime) && InRange(8, true, a.ctime) && InRange(4, true, a.stuffedSize)
  }

  function NumValues(hs: seq<nat>): (r: seq<Val>)
    ensures |r| == |hs| && forall i :: 0 <= i < |r| ==> r[i] == N(hs[i])
  {
    seq(|hs|, i requires 0 <= i < |hs| => N(hs[i]))
  }

  function AttrValues(attrs: seq<L.Attr>): (r: seq<Val>)
    ensures |r| == |attrs| && forall i :: 0 <= i < |r| ==> r[i] == AttrValue(attrs[i])
  {
    seq(|attrs|, i requires 0 <= i < |attrs| => AttrValue(attrs[i]))
  }

  function ArrayValue(vs: seq<Val>): Val {
    T([T([Unit, N(|vs|)]), T(vs)])
  }

  lemma CountTyped(n: nat)
    requires n <= LIMIT_PATH_SEGMENT_COUNT
    ensures TypedSeq([PAD, U32], [Unit, N(n)])
  {
    assert Pow256(4) >= 256 by { assert Pow256(4) == 256 * Pow256(3); }
    TwoFields(PAD, U32, Unit, N(n), 0);
  }

  lemma ArrayTyped(elem: Field, vs: seq<Val>)
    requires |vs| <= LIMIT_PATH_SEGMENT_COUNT && forall i :: 0 <= i < |vs| ==> Typed(elem, vs[i])
    ensures Typed(Dep([PAD, U32], Counted(1, 0, [elem], [])), ArrayValue(vs))
  {
    CountTyped(|vs|);
    CopiesTyped(elem, vs);
    NoMoreGroups(elem, |vs|);
  }

  function HeadValues(a: L.Attr): seq<Val> { AttrValue(a).vs[0].vs }
  function PartValues(a: L.Attr): seq<Val> { AttrValue(a).vs[1].vs }

  lemma HeadTyped(a: L.Attr)
    requires Storable(a)
    ensures TypedSeq(ATTR_HEAD, HeadValues(a))
  {
    assert Pow256(4) >= 256 by { assert Pow256(4) == 256 * Pow256(3); }
    AllTyped(ATTR_HEAD, HeadValues(a));
  }

  lemma PartTyped(a: L.Attr, i: nat)
    requires Storable(a) && i < |ATTR_PARTS|
    ensures Typed(Present(ATTR_PARTS, HeadValues(a))[i], PartValues(a)[i])
  {
    var hv := HeadValues(a);
    var fields := if Holds(ATTR_PARTS[i].guard, hv) then ATTR_PARTS[i].fields else [];
    assert Present(ATTR_PARTS, hv)[i] == Rec(fields);
    if i > 0 {
      NoOptionalParts(hv, i);
      assert TypedSeq([], []);
    } else if a.kind == L.Metafile {
      assert !Bit(COMMON_ALL, META_UNSTUFFED);
      TwoFields(I32, PAD, N(a.stuffedSize), Unit, 0);
    } else {
      assert TypedSeq([], []);
    }
  }

  lemma AttrTyped(a: L.Attr)
    requires Storable(a)
    ensures Typed(ATTR, AttrValue(a)) && AttrNum(AttrValue(a), MASK_AT) == COMMON_ALL
  {
    HeadTyped(a);
    var fs := Present(ATTR_PARTS, HeadValues(a));
    forall i | 0 <= i < |fs| ensures Typed(fs[i], PartValues(a)[i]) {
      PartTyped(a, i);
    }
    AllTyped(fs, PartValues(a));
  }

  // Where the fields of an attribute stand in its bytes: first whose it is and
  // who may use it,
  lemma OwnerPositions(a: L.Attr, buf: seq<byte>, pos: nat)
    requires TypedSeq(ATTR_HEAD, HeadValues(a)) && Matches(buf, pos, EncSeq(ATTR_HEAD, HeadValues(a), pos))
    ensures pos + 16 <= |buf| && NumValue(false, buf[pos..pos + 4]) == a.owner
    ensures NumValue(false, buf[pos + 4..pos + 8]) == a.group && NumValue(false, buf[pos + 8..pos + 12]) == a.perms
    ensures TypedSeq([I64, I64, I64, U32, ENUM], HeadValues(a)[4..])
    ensures Matches(buf, pos + 16, EncSeq([I64, I64, I64, U32, ENUM], HeadValues(a)[4..], pos + 16))
  {
    var hv := HeadValues(a);
    assert ATTR_HEAD == [Num(4, false)] + [U32, U32, PAD, I64, I64, I64, U32, ENUM];
    NumFirst(4, false, [U32, U32, PAD, I64, I64, I64, U32, ENUM], hv, buf, pos);
    assert [U32, U32, PAD, I64, I64, I64, U32, ENUM] == [Num(4, false)] + [U32, PAD, I64, I64, I64, U32, ENUM];
    NumFirst(4, false, [U32, PAD, I64, I64, I64, U32, ENUM], hv[1..], buf, pos + 4);
    assert [U32, PAD, I64, I64, I64, U32, ENUM] == [Num(4, false)] + [PAD, I64, I64, I64, U32, ENUM];
    NumFirst(4, false, [PAD, I64, I64, I64, U32, ENUM], hv[1..][1..], buf, pos + 8);
    FirstMatches([PAD, I64, I64, I64, U32, ENUM], hv[1..][1..][1..], buf, pos + 12);
    assert [PAD, I64, I64, I64, U32, ENUM][1..] == [I64, I64, I64, U32, ENUM];
    assert hv[1..][1..][1..][1..] == hv[4..];
  }

  // then the three times, the mask and the type.
  lemma TimePositions(a: L.Attr, buf: seq<byte>, pos: nat)
    requires TypedSeq([I64, I64, I64, U32, ENUM], HeadValues(a)[4..])
    requires Matches(buf, pos, EncSeq([I64, I64, I64, U32, ENUM], HeadValues(a)[4..], pos))
    ensures pos + 32 <= |buf| && NumValue(true, buf[pos..pos + 8]) == a.atime
    ensures NumValue(true, buf[pos + 8..pos + 16]) == a.mtime && NumValue(true, buf[pos + 16..pos + 24]) == a.ctime
    ensures NumValue(false, buf[pos + 24..pos + 28]) == 0x7f && NumValue(true, buf[pos + 28..pos + 32]) == TypeCode(a.kind)
  {
    var hv := HeadValues(a)[4..];
    assert [I64, I64, I64, U32, ENUM] == [Num(8, true)] + [I64, I64, U32, ENUM];
    NumFirst(8, true, [I64, I64, U32, ENUM], hv, buf, pos);
    assert [I64, I64, U32, ENUM] == [Num(8, true)] + [I64, U32, ENUM];
    NumFirst(8, true, [I64, U32, ENUM], hv[1..], buf, pos + 8);
    assert [I64, U32, ENUM] == [Num(8, true)] + [U32, ENUM];
    NumFirst(8, true, [U32, ENUM], hv[1..][1..], buf, pos + 16);
    assert [U32, ENUM] == [Num(4, false)] + [ENUM];
    NumFirst(4, false, [ENUM], hv[1..][1..][1..], buf, pos + 24);
    assert [ENUM] == [Num(4, true)] + [];
    NumFirst(4, true, [], hv[1..][1..][1..][1..], buf, pos + 28);
  }

  lemma AttrPositions(a: L.Attr, buf: seq<byte>, pos: nat)
    requires Storable(a) && Typed(ATTR, AttrValue(a)) && Matches(buf, pos, Enc(ATTR, AttrValue(a), pos))
    ensures pos + 48 <= |buf| && NumValue(false, buf[pos..pos + 4]) == a.owner
    ensures NumValue(false, buf[pos + 4..pos + 8]) == a.group && NumValue(false, buf[pos + 8..pos + 12]) == a.perms
    ensures NumValue(true, buf[pos + 16..pos + 24]) == a.atime && NumValue(true, buf[pos + 24..pos + 32]) == a.mtime
    ensures NumValue(true, buf[pos + 32..pos + 40]) == a.ctime && NumValue(false, buf[pos + 40..pos + 44]) == 0x7f
    ensures NumValue(true, buf[pos + 44..pos + 48]) ==
            match a.kind { case Metafile => 1 case Other => 2 case Directory => 4 case Symlink => 8 }
  {
    var hv := HeadValues(a);
    var h := EncSeq(ATTR_HEAD, hv, pos);
    MatchesSplit(buf, pos, h, EncSeq(TailOf(ATTR_HEAD, When(ATTR_PARTS), hv).value, PartValues(a), pos + |h|));
    OwnerPositions(a, buf, pos);
    TimePositions(a, buf, pos + 16);
  }

  // The message an answer is sent as: with an error, nothing but its status.
  function Message(r: L.Outcome): Response
    requires r.Reply?
  {
    Response(LOOKUP_PATH, r.status,
             if r.status == 0 then [ArrayValue(NumValues(r.handles)), ArrayValue(AttrValues(r.attrs))] else [])
  }

  // What the machine may put into an answer can be put into a message.
  predicate Representable(r: L.Outcome) {
    && r.Reply? && InRange(4, true, r.status)
    && (forall h :: h in r.handles ==> InRange(8, false, h)) && forall a :: a in r.attrs ==> Storable(a)
  }

  lemma ArraysFit(v: Version, handles: seq<nat>, attrs: seq<L.Attr>)
    requires Sendable(v) && |handles| <= LIMIT_PATH_SEGMENT_COUNT && |attrs| <= LIMIT_PATH_SEGMENT_COUNT
    requires (forall h :: h in handles ==> InRange(8, false, h)) && forall a :: a in attrs ==> Storable(a)
    ensures var m := Response(LOOKUP_PATH, 0, [ArrayValue(NumValues(handles)), ArrayValue(AttrValues(attrs))]);
            ValidResp(m) && |RespCells(v, m)| <= MaxResp(LOOKUP_PATH)
  {
    var hs, values := NumValues(handles), AttrValues(attrs);
    forall i | 0 <= i < |hs| ensures Typed(HANDLE, hs[i]) {
      assert handles[i] in handles;
    }
    forall i | 0 <= i < |values| ensures Typed(ATTR, values[i]) && AttrNum(values[i], MASK_AT) == COMMON_ALL {
      assert attrs[i] in attrs;
      AttrTyped(attrs[i]);
    }
    ArrayTyped(HANDLE, hs);
    ArrayTyped(ATTR, values);
    LookupResponseFits(v, ArrayValue(hs), ArrayValue(values));
  }

  lemma ReplyHead(status: int)
    requires InRange(4, true, status)
    ensures TypedSeq(RESP_HEAD, [N(LOOKUP_PATH), N(status)])
  {
    assert Pow256(4) >= 256 by { assert Pow256(4) == 256 * Pow256(3); }
    TwoFields(ENUM, ERROR, N(LOOKUP_PATH), N(status), 0);
  }

  // Every answer to a path within the limit, from a base whose attributes can
  // be read, is a well formed message that fits the room kept for it.
  lemma ReplyFits(v: Version, ns: L.Namespace, base: nat, segs: seq<string>, r: L.Outcome)
    requires Sendable(v) && |segs| <= LIMIT_PATH_SEGMENT_COUNT
    requires L.IsReply(ns, base, segs, r) && ns.attr(0, base).Value? && Representable(r)
    ensures r.handleCount == |r.handles| && r.attrCount == |r.attrs|
    ensures ValidResp(Message(r)) && |RespCells(v, Message(r))| <= MaxResp(LOOKUP_PATH)
  {
    L.ResponseSoundIff(ns, base, segs);
    LookupBody();
    if r.status == 0 {
      ArraysFit(v, r.handles, r.attrs);
    } else {
      ReplyHead(r.status);
      RespSize(v, Message(r));
    }
  }
}
