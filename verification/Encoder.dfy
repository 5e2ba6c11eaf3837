// The encoder and decoder as they run: a cursor moves through a buffer, bytes
// are stored or read where it stands, and arrays are handled by loops. Both
// are proved against the layout functions of `Wire`.

module Encoder {
  import opened Wire

  // A buffer after a pattern was laid over it at `pos`.
  function Overlay(before: seq<byte>, pos: nat, cells: seq<Cell>): (r: seq<byte>)
    requires pos + |cells| <= |before|
    ensures |r| == |before|
    ensures forall i :: 0 <= i < |r| ==>
      r[i] == if pos <= i < pos + |cells| && cells[i - pos].Put? then cells[i - pos].b else before[i]
  {
    seq(|before|, i requires 0 <= i < |before| =>
      if pos <= i < pos + |cells| && cells[i - pos].Put? then cells[i - pos].b else before[i])
  }

  lemma OverlayMatches(before: seq<byte>, pos: nat, cells: seq<Cell>)
    requires pos + |cells| <= |before|
    ensures Matches(Overlay(before, pos, cells), pos, cells)
  {
    forall i | 0 <= i < |cells| && cells[i].Put?
      ensures Overlay(before, pos, cells)[pos + i] == cells[i].b
    {
      assert cells[pos + i - pos] == cells[i];
    }
  }

  lemma OverlayAppend(before: seq<byte>, pos: nat, a: seq<Cell>, b: seq<Cell>)
    requires pos + |a| + |b| <= |before|
    ensures Overlay(Overlay(before, pos, a), pos + |a|, b) == Overlay(before, pos, a + b)
  {
    var x := Overlay(Overlay(before, pos, a), pos + |a|, b);
    var y := Overlay(before, pos, a + b);
    forall i | 0 <= i < |before| ensures x[i] == y[i] {
      if pos <= i < pos + |a| {
        assert (a + b)[i - pos] == a[i - pos];
      } else if pos + |a| <= i < pos + |a| + |b| {
        assert (a + b)[i - pos] == b[i - pos - |a|];
      }
    }
  }

  lemma OverlayKeeps(before: seq<byte>, pos: nat, n: nat)
    requires pos + n <= |before|
    ensures Overlay(before, pos, Keeps(n)) == before
  {
    KeepsAt(n);
  }

  lemma OverlayThree(before: seq<byte>, pos: nat, a: seq<Cell>, b: seq<Cell>, c: seq<Cell>)
    requires pos + |a| + |b| + |c| <= |before|
    ensures Overlay(Overlay(Overlay(before, pos, a), pos + |a|, b), pos + |a| + |b|, c) == Overlay(before, pos, a + (b + c))
  {
    OverlayAppend(Overlay(before, pos, a), pos + |a|, b, c);
    OverlayAppend(before, pos, a, b + c);
  }

  // Writing the first of the remaining fields leaves the others to be written.
  lemma FieldsStep(fs: seq<Field>, vs: seq<Val>, i: nat, now: seq<byte>, at: nat)
    requires i < |fs| == |vs| && TypedSeq(fs[i..], vs[i..]) && at + |EncSeq(fs[i..], vs[i..], at)| <= |now|
    ensures Typed(fs[i], vs[i]) && TypedSeq(fs[i + 1..], vs[i + 1..])
    ensures Height(fs[i]) <= HeightSeq(fs[i..]) && HeightSeq(fs[i + 1..]) <= HeightSeq(fs[i..])
    ensures var e := Enc(fs[i], vs[i], at);
            var rest := EncSeq(fs[i + 1..], vs[i + 1..], at + |e|);
            && |EncSeq(fs[i..], vs[i..], at)| == |e| + |rest|
            && Overlay(Overlay(now, at, e), at + |e|, rest) == Overlay(now, at, EncSeq(fs[i..], vs[i..], at))
  {
    assert fs[i..][1..] == fs[i + 1..] && vs[i..][1..] == vs[i + 1..];
    var e := Enc(fs[i], vs[i], at);
    OverlayAppend(now, at, e, EncSeq(fs[i + 1..], vs[i + 1..], at + |e|));
  }

  class Cursor {
    const buf: array<byte>
    var pos: nat

    constructor (buf: array<byte>, pos: nat)
      requires pos <= buf.Length
      ensures this.buf == buf && this.pos == pos
    {
      this.buf := buf;
      this.pos := pos;
    }

    ghost predicate Room(n: nat)
      reads this
    {
      pos + n <= buf.Length
    }

    // What every writing method does: lay `cells` over the buffer at the
    // cursor and move past them.
    twostate predicate Wrote(cells: seq<Cell>)
      reads this, buf
    {
      && old(pos) + |cells| <= buf.Length
      && pos == old(pos) + |cells|
      && buf[..] == Overlay(old(buf[..]), old(pos), cells)
    }

    method PutBytes(s: seq<byte>)
      requires Room(|s|)
      modifies this, buf
      ensures Wrote(Puts(s))
    {
      ghost var before := buf[..];
      PutsAt(s);
      var i := 0;
      while i < |s|
        invariant 0 <= i <= |s| && pos == old(pos) + i
        invariant forall j :: 0 <= j < buf.Length ==>
          buf[j] == if old(pos) <= j < pos then s[j - old(pos)] else before[j]
      {
        buf[pos] := s[i];
        pos := pos + 1;
        i := i + 1;
      }
    }

    method Advance(n: nat)
      requires Room(n)
      modifies this
      ensures pos == old(pos) + n
      ensures Wrote(Keeps(n))
    {
      OverlayKeeps(buf[..], pos, n);
      pos := pos + n;
    }

    // One machine word, low byte first.
    method PutNum(width: nat, signed: bool, v: int)
      requires InRange(width, signed, v) && Room(width)
      modifies this, buf
      ensures Wrote(Puts(NumBytes(width, signed, v)))
      ensures forall i :: 0 <= i < width ==> buf[old(pos) + i] as int == v / Pow256(i) % 256
    {
      ghost var before, at := buf[..], pos;
      PutBytes(NumBytes(width, signed, v));
      forall i | 0 <= i < width ensures buf[at + i] as int == v / Pow256(i) % 256 {
        NumBytesAt(width, signed, v, i);
        PutsAt(NumBytes(width, signed, v));
        assert buf[at + i] == buf[..][at + i];
      }
    }

    method PutStr(s: seq<byte>)
      requires IsString(s) && Room(StrSize(|s|))
      modifies this, buf
      ensures Wrote(EncStr(s))
    {
      ghost var before, at := buf[..], pos;
      ghost var len := Puts(NumBytes(4, false, |s|));
      PutNum(4, false, |s|);
      if s == [] {
        Advance(4);
        OverlayAppend(before, at, len, Keeps(4));
      } else {
        var pad := StrSize(|s|) - |s| - 5;
        PutBytes(s + [0]);
        Advance(pad);
        OverlayThree(before, at, len, Puts(s + [0]), Keeps(pad));
      }
    }

    method PutKeyVal(s: seq<byte>)
      requires |s| < Pow256(4) && Room(KeyValSize(|s|))
      modifies this, buf
      ensures Wrote(EncKeyVal(s))
    {
      ghost var before, at := buf[..], pos;
      var pad := KeyValSize(|s|) - |s| - 4;
      PutNum(4, false, |s|);
      PutBytes(s);
      Advance(pad);
      OverlayThree(before, at, Puts(NumBytes(4, false, |s|)), Puts(s), Keeps(pad));
    }

    method PutField(f: Field, v: Val)
      requires Typed(f, v) && Room(|Enc(f, v, pos)|)
      modifies this, buf
      ensures Wrote(Enc(f, v, old(pos)))
      decreases Height(f), 1
    {
      match f
      case Num(w, signed) => PutNum(w, signed, v.n);
      case Skip(n) => Advance(n);
      case Align => Advance(Padding(pos));
      case Str => PutStr(v.b);
      case KeyVal => PutKeyVal(v.b);
      case Raw(_) => PutBytes(v.b);
      case Rec(fields) => PutFields(fields, v.vs);
      case Dep(head, kind) => PutTwo(head, v.vs[0].vs, TailOf(head, kind, v.vs[0].vs).value, v.vs[1].vs);
    }

    // A head, and the fields it has decided on.
    method PutTwo(head: seq<Field>, hv: seq<Val>, tail: seq<Field>, tv: seq<Val>)
      requires TypedSeq(head, hv) && TypedSeq(tail, tv)
      requires var h := EncSeq(head, hv, pos); Room(|h| + |EncSeq(tail, tv, pos + |h|)|)
      modifies this, buf
      ensures var h := EncSeq(head, hv, old(pos)); Wrote(h + EncSeq(tail, tv, old(pos) + |h|))
      decreases 1 + Max(HeightSeq(head), HeightSeq(tail)), 0
    {
      ghost var before, at := buf[..], pos;
      ghost var h := EncSeq(head, hv, pos);
      ghost var t := EncSeq(tail, tv, pos + |h|);
      PutFields(head, hv);
      PutFields(tail, tv);
      OverlayAppend(before, at, h, t);
    }

    method PutFields(fs: seq<Field>, vs: seq<Val>)
      requires TypedSeq(fs, vs) && Room(|EncSeq(fs, vs, pos)|)
      modifies this, buf
      ensures Wrote(EncSeq(fs, vs, old(pos)))
      decreases HeightSeq(fs), 2 + |fs|
    {
      ghost var before, all := buf[..], EncSeq(fs, vs, pos);
      var i := 0;
      while i < |fs|
        invariant 0 <= i <= |fs| && |vs| == |fs| && TypedSeq(fs[i..], vs[i..])
        invariant HeightSeq(fs[i..]) <= HeightSeq(fs)
        invariant pos + |EncSeq(fs[i..], vs[i..], pos)| == old(pos) + |all|
        invariant Overlay(buf[..], pos, EncSeq(fs[i..], vs[i..], pos)) == Overlay(before, old(pos), all)
      {
        FieldsStep(fs, vs, i, buf[..], pos);
        PutField(fs[i], vs[i]);
        i := i + 1;
      }
      OverlayKeeps(buf[..], pos, 0);
    }
  }

  // --------------------------------------------------------------------------
  // Decoding in place: the buffer is only read.
  // --------------------------------------------------------------------------

  method TakeNum(buf: array<byte>, pos: nat, width: nat, signed: bool) returns (r: Decoded)
    ensures r == DecNum(width, signed, buf[..], pos)
    ensures r.Some? <==> pos + width <= buf.Length
    ensures r.Some? ==>
      && r.value.0.N? && InRange(width, signed, r.value.0.n) && r.value.1 == pos + width
      && forall i :: 0 <= i < width ==> buf[pos + i] as int == r.value.0.n / Pow256(i) % 256
  {
    if pos + width > buf.Length { return None; }
    ghost var s := buf[..][pos..pos + width];
    var u, i := 0, width;
    while i > 0
      invariant 0 <= i <= width && u >= 0
      invariant u == FromLittleEndian(s[i..])
    {
      i := i - 1;
      u := buf[pos + i] as int + 256 * u;
      assert s[i..][1..] == s[i + 1..];
    }
    assert s[0..] == s;
    NumValueAt(signed, s);
    assert forall j :: 0 <= j < width ==> buf[pos + j] == s[j];
    r := Some((N(FromUnsigned(width, signed, u)), pos + width));
  }

  method TakeField(buf: array<byte>, f: Field, pos: nat) returns (r: Decoded)
    ensures r == Dec(f, buf[..], pos)
    decreases Height(f), 0
  {
    match f
    case Num(w, signed) => r := TakeNum(buf, pos, w, signed);
    case Skip(n) => r := if pos + n > buf.Length then None else Some((Unit, pos + n));
    case Align => r := if pos + Padding(pos) > buf.Length then None else Some((Unit, pos + Padding(pos)));
    case Str => r := TakeBytes(buf, true, pos);
    case KeyVal => r := TakeBytes(buf, false, pos);
    case Raw(n) => r := if pos + n > buf.Length then None else Some((B(buf[pos..pos + n]), pos + n));
    case Rec(fields) =>
      var d := TakeFields(buf, fields, pos);
      r := if d.None? then None else Some((T(d.value.0), d.value.1));
    case Dep(head, kind) =>
      var h := TakeFields(buf, head, pos);
      if h.None? { return None; }
      var tail := TailOf(head, kind, h.value.0);
      if tail.None? { return None; }
      var t := TakeFields(buf, tail.value, h.value.1);
      r := if t.None? then None else Some((T([T(h.value.0), T(t.value.0)]), t.value.1));
  }

  method TakeBytes(buf: array<byte>, terminated: bool, pos: nat) returns (r: Decoded)
    ensures r == DecBytes(terminated, buf[..], pos)
    ensures r.Some? ==>
      && r.value.0.B? && (forall i :: 0 <= i < 4 ==> buf[pos + i] as int == |r.value.0.b| / Pow256(i) % 256)
      && forall i :: 0 <= i < |r.value.0.b| ==> buf[pos + 4 + i] == r.value.0.b[i]
  {
    var d := TakeNum(buf, pos, 4, false);
    if d.None? { return None; }
    var len := d.value.0.n;
    var size := if terminated then StrSize(len) else KeyValSize(len);
    r := if pos + size > buf.Length then None else Some((B(buf[pos + 4..pos + 4 + len]), pos + size));
  }

  // Reading the first of the remaining fields leaves the others to be read.
  lemma TakeStep(fs: seq<Field>, i: nat, buf: seq<byte>, at: nat, vs: seq<Val>)
    requires i < |fs|
    ensures HeightSeq(fs[i + 1..]) <= HeightSeq(fs[i..])
    ensures Dec(fs[i], buf, at).None? ==> DecSeq(fs[i..], buf, at).None?
    ensures Dec(fs[i], buf, at).Some? ==>
              var d := Dec(fs[i], buf, at).value;
              var rest := DecSeq(fs[i + 1..], buf, d.1);
              var all := DecSeq(fs[i..], buf, at);
              if rest.None? then all.None?
              else all.Some? && vs + all.value.0 == vs + [d.0] + rest.value.0 && all.value.1 == rest.value.1
  {
    assert fs[i..][1..] == fs[i + 1..];
    if Dec(fs[i], buf, at).Some? {
      var d := Dec(fs[i], buf, at).value;
      var rest := DecSeq(fs[i + 1..], buf, d.1);
      assert rest.Some? ==> vs + ([d.0] + rest.value.0) == vs + [d.0] + rest.value.0;
    }
  }

  method TakeFields(buf: array<byte>, fs: seq<Field>, pos: nat) returns (r: DecodedSeq)
    ensures r == DecSeq(fs, buf[..], pos)
    decreases HeightSeq(fs), 1 + |fs|
  {
    var vs, at, i := [], pos, 0;
    ghost var whole := DecSeq(fs, buf[..], pos);
    assert fs[0..] == fs && (whole.Some? ==> [] + whole.value.0 == whole.value.0);
    while i < |fs|
      invariant 0 <= i <= |fs| && HeightSeq(fs[i..]) <= HeightSeq(fs)
      invariant var rest := DecSeq(fs[i..], buf[..], at);
        whole == if rest.None? then None else Some((vs + rest.value.0, rest.value.1))
    {
      TakeStep(fs, i, buf[..], at, vs);
      var d := TakeField(buf, fs[i], at);
      if d.None? { return None; }
      vs := vs + [d.value.0];
      at := d.value.1;
      i := i + 1;
    }
    assert vs + [] == vs;
    r := Some((vs, at));
  }
}
