// Small writes: the regions of the user's buffer are gathered into the request
// and come back as one contiguous buffer.

module SmallIo {
  import opened Wire
  import opened Messages
  import opened Encoder

  const MAX_SEGMENTS := 64

  // The regions of a buffer named by offsets and sizes.
  predicate Regions(buffer: seq<byte>, offsets: seq<int>, sizes: seq<int>) {
    |offsets| == |sizes| &&
    forall i :: 0 <= i < |sizes| ==> 0 <= sizes[i] && 0 <= offsets[i] && offsets[i] + sizes[i] <= |buffer|
  }

  function Gathered(buffer: seq<byte>, offsets: seq<int>, sizes: seq<int>): (r: seq<byte>)
    requires Regions(buffer, offsets, sizes)
  {
    if sizes == [] then []
    else buffer[offsets[0]..offsets[0] + sizes[0]] + Gathered(buffer, offsets[1..], sizes[1..])
  }

  function Total(sizes: seq<int>): int {
    if sizes == [] then 0 else sizes[0] + Total(sizes[1..])
  }

  lemma {:induction false} GatheredSize(buffer: seq<byte>, offsets: seq<int>, sizes: seq<int>)
    requires Regions(buffer, offsets, sizes)
    ensures |Gathered(buffer, offsets, sizes)| == Total(sizes)
    decreases |sizes|
  {
    if sizes == [] {
    } else {
      GatheredSize(buffer, offsets[1..], sizes[1..]);
    }
  }

  // Byte m of segment k stands behind all the bytes of the segments before it.
  lemma {:induction false} GatheredAt(buffer: seq<byte>, offsets: seq<int>, sizes: seq<int>, k: nat, m: nat)
    requires Regions(buffer, offsets, sizes) && k < |sizes| && m < sizes[k]
    ensures 0 <= Total(sizes[..k]) && Total(sizes[..k]) + m < |Gathered(buffer, offsets, sizes)|
    ensures Gathered(buffer, offsets, sizes)[Total(sizes[..k]) + m] == buffer[offsets[k] + m]
    decreases k
  {
    if k == 0 {
      assert sizes[..0] == [];
    } else {
      GatheredAt(buffer, offsets[1..], sizes[1..], k - 1, m);
      assert sizes[..k][1..] == sizes[1..][..k - 1];
    }
  }

  // Filling in a request: the byte count is the sum over the segments.
  method FillTotal(sizes: seq<int>) returns (totalBytes: int)
    requires |sizes| <= MAX_SEGMENTS
    ensures totalBytes == Total(sizes)
  {
    totalBytes := 0;
    var i := 0;
    while i < |sizes|
      invariant 0 <= i <= |sizes|
      invariant totalBytes + Total(sizes[i..]) == Total(sizes)
    {
      assert sizes[i..][1..] == sizes[i + 1..];
      totalBytes := totalBytes + sizes[i];
      i := i + 1;
    }
  }

  lemma PutsAppend(a: seq<byte>, b: seq<byte>)
    ensures Puts(a + b) == Puts(a) + Puts(b)
  {
    PutsAt(a + b);
    PutsAt(a);
    PutsAt(b);
  }

  lemma GatherStep(buffer: seq<byte>, offsets: seq<int>, sizes: seq<int>, i: nat, now: seq<byte>, at: nat)
    requires i < |sizes| == |offsets| && Regions(buffer, offsets[i..], sizes[i..])
    requires at + |Gathered(buffer, offsets[i..], sizes[i..])| <= |now|
    ensures 0 <= offsets[i] && 0 <= sizes[i] && offsets[i] + sizes[i] <= |buffer|
    ensures Regions(buffer, offsets[i + 1..], sizes[i + 1..])
    ensures var part := buffer[offsets[i]..offsets[i] + sizes[i]];
            var rest := Gathered(buffer, offsets[i + 1..], sizes[i + 1..]);
            var all := Gathered(buffer, offsets[i..], sizes[i..]);
            && |all| == |part| + |rest|
            && Overlay(Overlay(now, at, Puts(part)), at + |part|, Puts(rest)) == Overlay(now, at, Puts(all))
  {
    assert offsets[i..][0] == offsets[i] && sizes[i..][0] == sizes[i];
    assert offsets[i..][1..] == offsets[i + 1..] && sizes[i..][1..] == sizes[i + 1..];
    var part := buffer[offsets[i]..offsets[i] + sizes[i]];
    var rest := Gathered(buffer, offsets[i + 1..], sizes[i + 1..]);
    PutsAppend(part, rest);
    OverlayAppend(now, at, Puts(part), Puts(rest));
  }

  // Encoding: one copy per segment, each where the last one ended.
  method PutSegments(c: Cursor, buffer: seq<byte>, offsets: seq<int>, sizes: seq<int>)
    requires |sizes| <= MAX_SEGMENTS && Regions(buffer, offsets, sizes)
    requires c.Room(|Gathered(buffer, offsets, sizes)|)
    modifies c, c.buf
    ensures c.Wrote(Puts(Gathered(buffer, offsets, sizes)))
  {
    ghost var before, data := c.buf[..], Gathered(buffer, offsets, sizes);
    var i := 0;
    assert offsets[0..] == offsets && sizes[0..] == sizes;
    while i < |sizes|
      invariant 0 <= i <= |sizes| && Regions(buffer, offsets[i..], sizes[i..])
      invariant c.pos + |Gathered(buffer, offsets[i..], sizes[i..])| == old(c.pos) + |data|
      invariant Overlay(c.buf[..], c.pos, Puts(Gathered(buffer, offsets[i..], sizes[i..]))) == Overlay(before, old(c.pos), Puts(data))
    {
      GatherStep(buffer, offsets, sizes, i, c.buf[..], c.pos);
      c.PutBytes(buffer[offsets[i]..offsets[i] + sizes[i]]);
      i := i + 1;
    }
    OverlayKeeps(c.buf[..], c.pos, 0);
    assert Puts(Gathered(buffer, offsets[i..], sizes[i..])) == Keeps(0);
  }

  // The head of a small-I/O request: handle, file system, kind of transfer,
  // server number and count, distribution, file request, offset, aggregate
  // size and the byte count.
  const SMALL_IO_HEAD := [HANDLE, FS_ID, ENUM, U32, U32, DIST, PINT_REQUEST, I64, SIZE, SIZE, PAD]
  const SMALL_IO_BODY := Dep(SMALL_IO_HEAD, Payload(2, IO_WRITE, 9))

  // What a write request carries once its segments are filled in and gathered.
  function WriteValue(head: seq<Val>, buffer: seq<byte>, offsets: seq<int>, sizes: seq<int>): Val
    requires Regions(buffer, offsets, sizes)
  {
    T([T(head), T([B(Gathered(buffer, offsets, sizes))])])
  }

  // The byte count that was filled in, the bytes that were copied and the bytes
  // the decoder takes agree: the server gets the segments end to end.
  lemma WriteRoundTrip(head: seq<Val>, buffer: seq<byte>, offsets: seq<int>, sizes: seq<int>, received: seq<byte>, pos: nat)
    requires Regions(buffer, offsets, sizes) && TypedSeq(SMALL_IO_HEAD, head)
    requires |head| == 11 && head[2] == N(IO_WRITE) && head[9] == N(Total(sizes))
    ensures var v := WriteValue(head, buffer, offsets, sizes);
            && Typed(SMALL_IO_BODY, v)
            && |Enc(SMALL_IO_BODY, v, pos)| == |EncSeq(SMALL_IO_HEAD, head, pos)| + Total(sizes)
            && (Matches(received, pos, Enc(SMALL_IO_BODY, v, pos)) ==>
                  Dec(SMALL_IO_BODY, received, pos) == Some((v, pos + |EncSeq(SMALL_IO_HEAD, head, pos)| + Total(sizes))))
  {
    GatheredSize(buffer, offsets, sizes);
    PayloadTyped(SMALL_IO_HEAD, head, 2, IO_WRITE, 9, Gathered(buffer, offsets, sizes), pos);
    var v := WriteValue(head, buffer, offsets, sizes);
    if Matches(received, pos, Enc(SMALL_IO_BODY, v, pos)) {
      RoundTrip(SMALL_IO_BODY, v, received, pos);
    }
  }

  lemma PayloadTyped(head: seq<Field>, hv: seq<Val>, ty: nat, only: int, total: nat, data: seq<byte>, pos: nat)
    requires TypedSeq(head, hv) && ty < |hv| && total < |hv| && hv[ty] == N(only) && hv[total] == N(|data|)
    ensures var f, v := Dep(head, Payload(ty, only, total)), T([T(hv), T([B(data)])]);
            Typed(f, v) && |Enc(f, v, pos)| == |EncSeq(head, hv, pos)| + |data|
  {
    assert [Raw(|data|)][1..] == [] && [B(data)][1..] == [];
    assert Typed(Raw(|data|), B(data));
    assert TypedSeq([Raw(|data|)], [B(data)]);
    var h := EncSeq(head, hv, pos);
    assert |EncSeq([Raw(|data|)], [B(data)], pos + |h|)| == |data|;
  }
}
