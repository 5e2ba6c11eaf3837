// The little-endian bytefield encoding: primitives, padded strings, counted
// arrays, mask-driven attributes and the other layouts whose later fields
// depend on earlier ones. A message layout is a list of fields; one encoder,
// one decoder and one round-trip proof serve every layout.

module Wire {

  newtype byte = x: int | 0 <= x < 256

  datatype Option<+T> = None | Some(value: T)

  // --------------------------------------------------------------------------
  // Integers.
  // --------------------------------------------------------------------------

  function Pow256(n: nat): (r: nat)
    ensures r >= 1 && (n > 0 ==> r % 256 == 0)
  {
    if n == 0 then 1 else 256 * Pow256(n - 1)
  }

  function LittleEndian(width: nat, x: nat): (r: seq<byte>)
    ensures |r| == width
  {
    if width == 0 then [] else [(x % 256) as byte] + LittleEndian(width - 1, x / 256)
  }

  function FromLittleEndian(s: seq<byte>): (r: nat)
    ensures r < Pow256(|s|)
  {
    if s == [] then 0 else s[0] as nat + 256 * FromLittleEndian(s[1..])
  }

  lemma {:induction false} LittleEndianRoundTrip(width: nat, x: nat)
    requires x < Pow256(width)
    ensures FromLittleEndian(LittleEndian(width, x)) == x
  {
    if width == 0 {
    } else {
      LittleEndianRoundTrip(width - 1, x / 256);
      assert LittleEndian(width, x)[1..] == LittleEndian(width - 1, x / 256);
    }
  }

  // Any bytes are the number they stand for, so reading loses nothing either.
  lemma {:induction false} FromLittleEndianRoundTrip(s: seq<byte>)
    ensures LittleEndian(|s|, FromLittleEndian(s)) == s
  {
    if s == [] {
    } else {
      FromLittleEndianRoundTrip(s[1..]);
      assert FromLittleEndian(s) % 256 == s[0] as nat && FromLittleEndian(s) / 256 == FromLittleEndian(s[1..]);
      assert s == [s[0]] + s[1..];
    }
  }

  // Byte order: the byte at position i is the one of weight 256 to the i.
  lemma {:induction false} LittleEndianAt(width: nat, x: nat, i: nat)
    requires i < width
    ensures LittleEndian(width, x)[i] as int == x / Pow256(i) % 256
  {
    if i == 0 {
      assert Pow256(0) == 1;
    } else {
      LittleEndianAt(width - 1, x / 256, i - 1);
      DivDiv(x, 256, Pow256(i - 1));
      assert LittleEndian(width, x)[i] == LittleEndian(width - 1, x / 256)[i - 1];
    }
  }

  lemma DivDiv(x: int, a: nat, b: nat)
    requires a > 0 && b > 0
    ensures a * b > 0 && x / a / b == x / (a * b)
  {
    var q, r := x / a / b, x / a % b;
    var low := a * r + x % a;
    Distribute(a, b * q, r);
    Reassociate(a, b, q);
    assert x == (a * b) * q + low;
    assert a * r <= a * (b - 1) by { Monotone(a, r, b - 1); }
    Distribute(a, b, -1);
    DivUnique(x, a * b, q, low);
  }

  lemma Distribute(a: int, x: int, y: int)
    ensures a * (x + y) == a * x + a * y
  {
  }

  lemma Reassociate(a: int, b: int, c: int)
    ensures (a * b) * c == a * (b * c)
  {
  }

  lemma Monotone(a: nat, x: int, y: int)
    requires x <= y
    ensures a * x <= a * y
  {
  }

  lemma DivUnique(x: int, n: nat, q: int, r: int)
    requires n > 0 && x == n * q + r && 0 <= r < n
    ensures x / n == q && x % n == r
  {
    var d := x / n - q;
    assert n * d == r - x % n by {
      assert n * (x / n) + x % n == x;
      assert n * d == n * (x / n) - n * q;
    }
    assert d >= 1 ==> n * d >= n;
    assert d <= -1 ==> n * d <= 0 - n;
  }

  // Adding a multiple of 256 * p does not show in the byte of weight p.
  lemma ByteOfSum(v: int, p: nat, m: nat)
    requires p > 0
    ensures (v + p * (256 * m)) / p % 256 == v / p % 256
  {
    var q, r := v / p, v % p;
    assert p * (q + 256 * m) == p * q + p * (256 * m);
    DivUnique(v + p * (256 * m), p, q + 256 * m, r);
    assert (q + 256 * m) % 256 == q % 256;
  }

  lemma {:induction false} Pow256Sum(i: nat, j: nat)
    ensures Pow256(i + j) == Pow256(i) * Pow256(j)
  {
    if i == 0 {
    } else {
      Pow256Sum(i - 1, j);
      assert Pow256(i + j) == 256 * Pow256(i - 1 + j);
      Reassociate(256, Pow256(i - 1), Pow256(j));
    }
  }

  predicate InRange(width: nat, signed: bool, v: int) {
    if signed then 0 <= 2 * v + Pow256(width) < 2 * Pow256(width) else 0 <= v < Pow256(width)
  }

  // Two's complement.
  function ToUnsigned(width: nat, v: int): int {
    if v < 0 then v + Pow256(width) else v
  }

  function FromUnsigned(width: nat, signed: bool, u: nat): int {
    if signed && 2 * u >= Pow256(width) then u - Pow256(width) else u
  }

  function NumBytes(width: nat, signed: bool, v: int): (r: seq<byte>)
    requires InRange(width, signed, v)
    ensures |r| == width
  {
    LittleEndian(width, ToUnsigned(width, v))
  }

  function NumValue(signed: bool, s: seq<byte>): int {
    FromUnsigned(|s|, signed, FromLittleEndian(s))
  }

  lemma NumRoundTrip(width: nat, signed: bool, v: int)
    requires InRange(width, signed, v)
    ensures NumValue(signed, NumBytes(width, signed, v)) == v
  {
    LittleEndianRoundTrip(width, ToUnsigned(width, v));
  }

  // Two's complement, byte by byte: for a negative number the quotient is the
  // one rounded down.
  lemma NumBytesAt(width: nat, signed: bool, v: int, i: nat)
    requires InRange(width, signed, v) && i < width
    ensures NumBytes(width, signed, v)[i] as int == v / Pow256(i) % 256
  {
    LittleEndianAt(width, ToUnsigned(width, v), i);
    if v < 0 {
      Pow256Sum(i, width - i);
      assert Pow256(width - i) == 256 * Pow256(width - i - 1);
      ByteOfSum(v, Pow256(i), Pow256(width - i - 1));
    }
  }

  // The number read from some bytes fits their width and has those bytes.
  lemma NumValueAt(signed: bool, s: seq<byte>)
    ensures InRange(|s|, signed, NumValue(signed, s))
    ensures forall i :: 0 <= i < |s| ==> s[i] as int == NumValue(signed, s) / Pow256(i) % 256
  {
    FromLittleEndianRoundTrip(s);
    forall i | 0 <= i < |s| ensures s[i] as int == NumValue(signed, s) / Pow256(i) % 256 {
      NumBytesAt(|s|, signed, NumValue(signed, s), i);
    }
  }

  // --------------------------------------------------------------------------
  // Layouts and the values they carry.
  // --------------------------------------------------------------------------

  datatype Field =
    | Num(width: nat, signed: bool)
    | Skip(n: nat)          // bytes stepped over, never written
    | Align                 // up to the next multiple of eight
    | Str                   // length, characters, terminator, padding to eight
    | KeyVal                // length, bytes, padding to eight
    | Raw(n: nat)           // bytes copied as they are
    | Rec(fields: seq<Field>)
    | Dep(head: seq<Field>, kind: Kind)   // the head's values decide what follows

  datatype Kind =
    // one array per group, all of length head[at] + plus, then further fields
    | Counted(at: nat, plus: int, groups: seq<Field>, after: seq<Field>)
    | When(parts: seq<Part>)    // every part whose guard holds, in order
    | OneOf(parts: seq<Part>)   // the first part whose guard holds
    | Payload(ty: nat, only: int, total: nat)   // head[total] bytes, if head[ty] == only

  datatype Part = Part(guard: Guard, fields: seq<Field>)

  // A test on the values of a head.
  datatype Guard =
    | Equals(at: nat, n: int)
    | HasBit(at: nat, unit: nat)
    | Named(at: nat, name: seq<byte>)
    | Not(g: Guard)
    | Both(a: Guard, b: Guard)
    | Always

  datatype Val = N(n: int) | B(b: seq<byte>) | T(vs: seq<Val>) | Unit

  const U32 := Num(4, false)
  const I32 := Num(4, true)
  const U64 := Num(8, false)
  const I64 := Num(8, true)
  const PAD := Skip(4)

  function RoundUp8(n: nat): (r: nat)
    ensures n <= r < n + 8 && r % 8 == 0
  {
    (n + 7) / 8 * 8
  }

  // Space taken by a string or key/value of the given length.
  function StrSize(len: nat): nat { RoundUp8(4 + len + 1) }
  function KeyValSize(len: nat): nat { RoundUp8(4 + len) }

  predicate Bit(mask: int, unit: nat) {
    unit > 0 && mask / unit % 2 == 1
  }

  predicate Holds(g: Guard, head: seq<Val>)
    decreases g
  {
    match g
    case Equals(at, n) => at < |head| && head[at] == N(n)
    case HasBit(at, unit) => at < |head| && head[at].N? && Bit(head[at].n, unit)
    case Named(at, name) => at < |head| && head[at] == B(name)
    case Not(inner) => !Holds(inner, head)
    case Both(x, y) => Holds(x, head) && Holds(y, head)
    case Always => true
  }

  function Copies(f: Field, n: int): (r: seq<Field>)
    ensures n >= 0 ==> |r| == n
    ensures forall i :: 0 <= i < |r| ==> r[i] == f
  {
    if n <= 0 then [] else [f] + Copies(f, n - 1)
  }

  function Groups(groups: seq<Field>, n: int): seq<Field> {
    if groups == [] then [] else Copies(groups[0], n) + Groups(groups[1..], n)
  }

  // A part takes no space unless its guard holds.
  function Present(parts: seq<Part>, head: seq<Val>): (r: seq<Field>)
    ensures |r| == |parts|
    ensures forall i :: 0 <= i < |r| ==> r[i] == Rec(if Holds(parts[i].guard, head) then parts[i].fields else [])
  {
    if parts == [] then []
    else [Rec(if Holds(parts[0].guard, head) then parts[0].fields else [])] + Present(parts[1..], head)
  }

  function First(parts: seq<Part>, head: seq<Val>): Option<seq<Field>> {
    if parts == [] then None
    else if Holds(parts[0].guard, head) then Some(parts[0].fields)
    else First(parts[1..], head)
  }

  // The fields that follow a decoded head, or nothing where the program stops.
  function Tail(kind: Kind, head: seq<Val>): Option<seq<Field>> {
    match kind
    case Counted(at, plus, groups, after) =>
      if at < |head| && head[at].N? then Some(Groups(groups, head[at].n + plus) + after) else None
    case When(parts) => Some(Present(parts, head))
    case OneOf(parts) => First(parts, head)
    case Payload(ty, only, total) =>
      if ty < |head| && head[ty] == N(only) then
        if total < |head| && head[total].N? && 0 <= head[total].n then Some([Raw(head[total].n)]) else None
      else Some([])
  }

  // --------------------------------------------------------------------------
  // Nesting depth, for termination.
  // --------------------------------------------------------------------------

  function Max(a: nat, b: nat): nat { if a < b then b else a }

  function Height(f: Field): nat
    decreases f
  {
    match f
    case Rec(fields) => 1 + HeightSeq(fields)
    case Dep(head, kind) => 1 + Max(HeightSeq(head), KindHeight(kind))
    case _ => 0
  }

  function HeightSeq(fs: seq<Field>): nat
    decreases fs
  {
    if fs == [] then 0 else Max(Height(fs[0]), HeightSeq(fs[1..]))
  }

  function KindHeight(k: Kind): nat
    decreases k
  {
    match k
    case Counted(_, _, groups, after) => Max(HeightSeq(groups), HeightSeq(after))
    case When(parts) => 1 + PartsHeight(parts)
    case OneOf(parts) => PartsHeight(parts)
    case Payload(_, _, _) => 0
  }

  function PartsHeight(parts: seq<Part>): nat
    decreases parts
  {
    if parts == [] then 0 else Max(HeightSeq(parts[0].fields), PartsHeight(parts[1..]))
  }

  lemma {:induction false} HeightAppend(a: seq<Field>, b: seq<Field>)
    ensures HeightSeq(a + b) == Max(HeightSeq(a), HeightSeq(b))
    decreases |a|
  {
    if a == [] {
      assert a + b == b;
    } else {
      HeightAppend(a[1..], b);
      assert (a + b)[1..] == a[1..] + b;
    }
  }

  lemma {:induction false} CopiesHeight(f: Field, n: int)
    ensures HeightSeq(Copies(f, n)) <= Height(f)
  {
    if n <= 0 {
    } else {
      CopiesHeight(f, n - 1);
      assert Copies(f, n)[1..] == Copies(f, n - 1);
    }
  }

  lemma {:induction false} GroupsHeight(groups: seq<Field>, n: int)
    ensures HeightSeq(Groups(groups, n)) <= HeightSeq(groups)
  {
    if groups == [] {
    } else {
      GroupsHeight(groups[1..], n);
      CopiesHeight(groups[0], n);
      HeightAppend(Copies(groups[0], n), Groups(groups[1..], n));
    }
  }

  lemma {:induction false} PresentHeight(parts: seq<Part>, head: seq<Val>)
    ensures HeightSeq(Present(parts, head)) <= 1 + PartsHeight(parts)
  {
    if parts == [] {
    } else {
      PresentHeight(parts[1..], head);
      assert Present(parts, head)[1..] == Present(parts[1..], head);
      var fields := if Holds(parts[0].guard, head) then parts[0].fields else [];
      assert Height(Rec(fields)) == 1 + HeightSeq(fields);
      assert Present(parts, head)[0] == Rec(fields);
    }
  }

  lemma {:induction false} FirstHeight(parts: seq<Part>, head: seq<Val>)
    ensures First(parts, head).Some? ==> HeightSeq(First(parts, head).value) <= PartsHeight(parts)
  {
    if parts == [] {
    } else {
      FirstHeight(parts[1..], head);
    }
  }

  lemma TailHeight(kind: Kind, head: seq<Val>)
    ensures Tail(kind, head).Some? ==> HeightSeq(Tail(kind, head).value) <= KindHeight(kind)
  {
    match kind
    case Counted(at, plus, groups, after) =>
      if at < |head| && head[at].N? {
        GroupsHeight(groups, head[at].n + plus);
        HeightAppend(Groups(groups, head[at].n + plus), after);
      }
    case When(parts) => PresentHeight(parts, head);
    case OneOf(parts) => FirstHeight(parts, head);
    case Payload(_, _, _) =>
  }

  // The fields after a head lie strictly below the field they belong to.
  function TailOf(head: seq<Field>, kind: Kind, hv: seq<Val>): (r: Option<seq<Field>>)
    ensures r.Some? ==> HeightSeq(r.value) < Height(Dep(head, kind))
  {
    TailHeight(kind, hv);
    Tail(kind, hv)
  }

  // --------------------------------------------------------------------------
  // Encoding: which bytes are written, and which are left as they were.
  // --------------------------------------------------------------------------

  datatype Cell = Put(b: byte) | Keep

  function Puts(s: seq<byte>): (r: seq<Cell>)
    ensures |r| == |s|
  {
    seq(|s|, i requires 0 <= i < |s| => Put(s[i]))
  }

  function Keeps(n: nat): (r: seq<Cell>)
    ensures |r| == n
  {
    seq(n, _ => Keep)
  }

  lemma PutsAt(s: seq<byte>)
    ensures forall i :: 0 <= i < |s| ==> Puts(s)[i] == Put(s[i])
  {
  }

  lemma KeepsAt(n: nat)
    ensures forall i :: 0 <= i < n ==> Keeps(n)[i] == Keep
  {
  }

  // A C string of known length: no character is the terminator.
  predicate IsString(s: seq<byte>) {
    |s| < Pow256(4) && 0 !in s
  }

  predicate Typed(f: Field, v: Val)
    decreases Height(f), 0
  {
    match f
    case Num(w, signed) => v.N? && InRange(w, signed, v.n)
    case Skip(_) => v.Unit?
    case Align => v.Unit?
    case Str => v.B? && IsString(v.b)
    case KeyVal => v.B? && |v.b| < Pow256(4)
    case Raw(n) => v.B? && |v.b| == n
    case Rec(fields) => v.T? && TypedSeq(fields, v.vs)
    case Dep(head, kind) =>
      && v.T? && |v.vs| == 2 && v.vs[0].T? && v.vs[1].T?
      && TypedSeq(head, v.vs[0].vs)
      && TailOf(head, kind, v.vs[0].vs).Some?
      && TypedSeq(TailOf(head, kind, v.vs[0].vs).value, v.vs[1].vs)
  }

  predicate TypedSeq(fs: seq<Field>, vs: seq<Val>)
    decreases HeightSeq(fs), 1 + |fs|
  {
    |fs| == |vs| && (fs == [] || (Typed(fs[0], vs[0]) && TypedSeq(fs[1..], vs[1..])))
  }

  // The empty string writes its length only; the byte that would hold its
  // terminator is left as it was.
  function EncStr(s: seq<byte>): (r: seq<Cell>)
    requires IsString(s)
    ensures |r| == StrSize(|s|)
  {
    Puts(NumBytes(4, false, |s|))
    + (if s == [] then Keeps(4) else Puts(s + [0]) + Keeps(StrSize(|s|) - |s| - 5))
  }

  function EncKeyVal(s: seq<byte>): (r: seq<Cell>)
    requires |s| < Pow256(4)
    ensures |r| == KeyValSize(|s|)
  {
    Puts(NumBytes(4, false, |s|)) + (Puts(s) + Keeps(KeyValSize(|s|) - |s| - 4))
  }

  // A string on the wire: its length, its characters, a terminator unless it is
  // empty, and bytes nobody writes.
  lemma EncStrAt(s: seq<byte>, i: nat)
    requires IsString(s) && i < |EncStr(s)|
    ensures i < 4 ==> EncStr(s)[i].Put? && EncStr(s)[i].b as int == |s| / Pow256(i) % 256
    ensures 4 <= i < 4 + |s| ==> EncStr(s)[i] == Put(s[i - 4])
    ensures i >= 4 + |s| ==> EncStr(s)[i] == if s != [] && i == 4 + |s| then Put(0) else Keep
  {
    var len, pad := NumBytes(4, false, |s|), StrSize(|s|) - |s| - 5;
    PutsAt(len);
    if i < 4 {
      NumBytesAt(4, false, |s|, i);
    } else if s == [] {
      KeepsAt(4);
    } else {
      PutsAt(s + [0]);
      KeepsAt(pad);
      assert EncStr(s)[i] == (Puts(s + [0]) + Keeps(pad))[i - 4];
    }
  }

  lemma EncKeyValAt(s: seq<byte>, i: nat)
    requires |s| < Pow256(4) && i < |EncKeyVal(s)|
    ensures i < 4 ==> EncKeyVal(s)[i].Put? && EncKeyVal(s)[i].b as int == |s| / Pow256(i) % 256
    ensures i >= 4 ==> EncKeyVal(s)[i] == if i < 4 + |s| then Put(s[i - 4]) else Keep
  {
    var len, pad := NumBytes(4, false, |s|), KeyValSize(|s|) - |s| - 4;
    PutsAt(len);
    if i < 4 {
      NumBytesAt(4, false, |s|, i);
    } else {
      PutsAt(s);
      KeepsAt(pad);
      assert EncKeyVal(s)[i] == (Puts(s) + Keeps(pad))[i - 4];
    }
  }

  // Buffers start on an eight-byte boundary, so alignment goes by position.
  function Padding(pos: nat): nat { RoundUp8(pos) - pos }

  function Enc(f: Field, v: Val, pos: nat): seq<Cell>
    requires Typed(f, v)
    decreases Height(f), 0
  {
    match f
    case Num(w, signed) => Puts(NumBytes(w, signed, v.n))
    case Skip(n) => Keeps(n)
    case Align => Keeps(Padding(pos))
    case Str => EncStr(v.b)
    case KeyVal => EncKeyVal(v.b)
    case Raw(_) => Puts(v.b)
    case Rec(fields) => EncSeq(fields, v.vs, pos)
    case Dep(head, kind) =>
      var h := EncSeq(head, v.vs[0].vs, pos);
      h + EncSeq(TailOf(head, kind, v.vs[0].vs).value, v.vs[1].vs, pos + |h|)
  }

  function EncSeq(fs: seq<Field>, vs: seq<Val>, pos: nat): seq<Cell>
    requires TypedSeq(fs, vs)
    decreases HeightSeq(fs), 1 + |fs|
  {
    if fs == [] then []
    else
      var e := Enc(fs[0], vs[0], pos);
      e + EncSeq(fs[1..], vs[1..], pos + |e|)
  }

  // --------------------------------------------------------------------------
  // Decoding. The C decoder does not check bounds; `None` stands for a read
  // outside the buffer or a value on which the program stops.
  // --------------------------------------------------------------------------

  type Decoded = Option<(Val, nat)>
  type DecodedSeq = Option<(seq<Val>, nat)>

  function DecNum(w: nat, signed: bool, buf: seq<byte>, pos: nat): (r: Decoded)
    ensures r.Some? ==> r.value.1 <= |buf| && r.value.1 == pos + w
  {
    if pos + w > |buf| then None else Some((N(NumValue(signed, buf[pos..pos + w])), pos + w))
  }

  function DecSkip(n: nat, buf: seq<byte>, pos: nat): Decoded {
    if pos + n > |buf| then None else Some((Unit, pos + n))
  }

  function DecBytes(terminated: bool, buf: seq<byte>, pos: nat): (r: Decoded)
    ensures r.Some? ==> r.value.1 <= |buf|
  {
    if pos + 4 > |buf| then None
    else
      var len := FromLittleEndian(buf[pos..pos + 4]);
      var size := if terminated then StrSize(len) else KeyValSize(len);
      if pos + size > |buf| then None else Some((B(buf[pos + 4..pos + 4 + len]), pos + size))
  }

  function Dec(f: Field, buf: seq<byte>, pos: nat): (r: Decoded)
    ensures r.Some? && pos <= |buf| ==> r.value.1 <= |buf|
    decreases Height(f), 0
  {
    match f
    case Num(w, signed) => DecNum(w, signed, buf, pos)
    case Skip(n) => DecSkip(n, buf, pos)
    case Align => DecSkip(Padding(pos), buf, pos)
    case Str => DecBytes(true, buf, pos)
    case KeyVal => DecBytes(false, buf, pos)
    case Raw(n) => if pos + n > |buf| then None else Some((B(buf[pos..pos + n]), pos + n))
    case Rec(fields) =>
      var d := DecSeq(fields, buf, pos);
      if d.None? then None else Some((T(d.value.0), d.value.1))
    case Dep(head, kind) =>
      var h := DecSeq(head, buf, pos);
      if h.None? then None
      else
        var tail := TailOf(head, kind, h.value.0);
        if tail.None? then None
        else
          var t := DecSeq(tail.value, buf, h.value.1);
          if t.None? then None else Some((T([T(h.value.0), T(t.value.0)]), t.value.1))
  }

  function DecSeq(fs: seq<Field>, buf: seq<byte>, pos: nat): (r: DecodedSeq)
    ensures r.Some? && pos <= |buf| ==> r.value.1 <= |buf|
    decreases HeightSeq(fs), 1 + |fs|
  {
    if fs == [] then Some(([], pos))
    else
      var d := Dec(fs[0], buf, pos);
      if d.None? then None
      else
        var rest := DecSeq(fs[1..], buf, d.value.1);
        if rest.None? then None else Some(([d.value.0] + rest.value.0, rest.value.1))
  }

  // --------------------------------------------------------------------------
  // Round trip.
  // --------------------------------------------------------------------------

  // The buffer holds everything the encoder writes; what it leaves alone, and
  // what lies beyond, may be anything.
  predicate Matches(buf: seq<byte>, pos: nat, cells: seq<Cell>) {
    pos + |cells| <= |buf| &&
    forall i :: 0 <= i < |cells| && cells[i].Put? ==> buf[pos + i] == cells[i].b
  }

  lemma MatchesSplit(buf: seq<byte>, pos: nat, a: seq<Cell>, b: seq<Cell>)
    ensures Matches(buf, pos, a + b) <==> Matches(buf, pos, a) && Matches(buf, pos + |a|, b)
  {
    if Matches(buf, pos, a) && Matches(buf, pos + |a|, b) {
      forall i | 0 <= i < |a + b| && (a + b)[i].Put?
        ensures buf[pos + i] == (a + b)[i].b
      {
        if i >= |a| { assert (a + b)[i] == b[i - |a|]; }
      }
    }
    if Matches(buf, pos, a + b) {
      forall i | 0 <= i < |a| && a[i].Put? ensures buf[pos + i] == a[i].b {
        assert (a + b)[i] == a[i];
      }
      forall i | 0 <= i < |b| && b[i].Put? ensures buf[pos + |a| + i] == b[i].b {
        assert (a + b)[|a| + i] == b[i];
      }
    }
  }

  lemma MatchesPuts(buf: seq<byte>, pos: nat, s: seq<byte>)
    requires Matches(buf, pos, Puts(s))
    ensures buf[pos..pos + |s|] == s
    ensures forall i :: 0 <= i < |s| ==> buf[pos + i] == s[i]
  {
    forall i | 0 <= i < |s| ensures buf[pos + i] == s[i] {
      assert Puts(s)[i] == Put(s[i]);
    }
  }

  lemma NumMatches(w: nat, signed: bool, v: int, buf: seq<byte>, pos: nat)
    requires InRange(w, signed, v) && Matches(buf, pos, Puts(NumBytes(w, signed, v)))
    ensures pos + w <= |buf| && NumValue(signed, buf[pos..pos + w]) == v
  {
    MatchesPuts(buf, pos, NumBytes(w, signed, v));
    NumRoundTrip(w, signed, v);
  }

  // The length that leads a string or key/value.
  lemma LengthMatches(n: nat, rest: seq<Cell>, buf: seq<byte>, pos: nat)
    requires n < Pow256(4) && Matches(buf, pos, Puts(NumBytes(4, false, n)) + rest)
    ensures pos + 4 <= |buf| && FromLittleEndian(buf[pos..pos + 4]) == n
    ensures Matches(buf, pos + 4, rest)
  {
    MatchesSplit(buf, pos, Puts(NumBytes(4, false, n)), rest);
    NumMatches(4, false, n, buf, pos);
  }

  lemma TextMatches(s: seq<byte>, pad: nat, buf: seq<byte>, pos: nat)
    requires Matches(buf, pos, Puts(s + [0]) + Keeps(pad))
    ensures pos + |s| < |buf| && buf[pos..pos + |s|] == s && buf[pos + |s|] == 0
  {
    MatchesSplit(buf, pos, Puts(s + [0]), Keeps(pad));
    MatchesPuts(buf, pos, s + [0]);
    assert (s + [0])[|s|] == 0;
    forall i | 0 <= i < |s| ensures buf[pos + i] == s[i] {
      assert (s + [0])[i] == s[i];
    }
  }

  lemma StrMatches(s: seq<byte>, buf: seq<byte>, pos: nat)
    requires IsString(s) && Matches(buf, pos, EncStr(s))
    ensures DecBytes(true, buf, pos) == Some((B(s), pos + StrSize(|s|)))
  {
    if s == [] {
      LengthMatches(0, Keeps(4), buf, pos);
      assert buf[pos + 4..pos + 4] == s;
    } else {
      var pad := StrSize(|s|) - |s| - 5;
      LengthMatches(|s|, Puts(s + [0]) + Keeps(pad), buf, pos);
      TextMatches(s, pad, buf, pos + 4);
    }
  }

  lemma KeyValMatches(s: seq<byte>, buf: seq<byte>, pos: nat)
    requires |s| < Pow256(4) && Matches(buf, pos, EncKeyVal(s))
    ensures DecBytes(false, buf, pos) == Some((B(s), pos + KeyValSize(|s|)))
  {
    var pad := Keeps(KeyValSize(|s|) - |s| - 4);
    LengthMatches(|s|, Puts(s) + pad, buf, pos);
    MatchesSplit(buf, pos + 4, Puts(s), pad);
    MatchesPuts(buf, pos + 4, s);
  }

  lemma RoundTripLeaf(f: Field, v: Val, buf: seq<byte>, pos: nat)
    requires !f.Rec? && !f.Dep? && Typed(f, v) && Matches(buf, pos, Enc(f, v, pos))
    ensures Dec(f, buf, pos) == Some((v, pos + |Enc(f, v, pos)|))
  {
    match f
    case Num(w, signed) => NumMatches(w, signed, v.n, buf, pos);
    case Skip(_) =>
    case Align =>
    case Str => StrMatches(v.b, buf, pos);
    case KeyVal => KeyValMatches(v.b, buf, pos);
    case Raw(_) => MatchesPuts(buf, pos, v.b);
  }

  // Decoding returns the value and stops exactly where encoding stopped,
  // whatever the buffer held before and whatever follows.
  lemma {:induction false} RoundTrip(f: Field, v: Val, buf: seq<byte>, pos: nat)
    requires Typed(f, v) && Matches(buf, pos, Enc(f, v, pos))
    ensures Dec(f, buf, pos) == Some((v, pos + |Enc(f, v, pos)|))
    decreases Height(f), 2
  {
    if f.Rec? {
      RoundTripSeq(f.fields, v.vs, buf, pos);
    } else if f.Dep? {
      RoundTripDep(f.head, f.kind, v, buf, pos);
    } else {
      RoundTripLeaf(f, v, buf, pos);
    }
  }

  // A head and the fields after it, once the head has decided what they are.
  lemma {:induction false} RoundTripTwo(head: seq<Field>, tail: seq<Field>, hv: seq<Val>, tv: seq<Val>, buf: seq<byte>, pos: nat)
    requires TypedSeq(head, hv) && TypedSeq(tail, tv)
    requires var h := EncSeq(head, hv, pos); Matches(buf, pos, h + EncSeq(tail, tv, pos + |h|))
    ensures var h := EncSeq(head, hv, pos);
            && DecSeq(head, buf, pos) == Some((hv, pos + |h|))
            && DecSeq(tail, buf, pos + |h|) == Some((tv, pos + |h| + |EncSeq(tail, tv, pos + |h|)|))
    decreases 1 + Max(HeightSeq(head), HeightSeq(tail)), 0
  {
    var h := EncSeq(head, hv, pos);
    MatchesSplit(buf, pos, h, EncSeq(tail, tv, pos + |h|));
    RoundTripSeq(head, hv, buf, pos);
    RoundTripSeq(tail, tv, buf, pos + |h|);
  }

  lemma {:induction false} RoundTripDep(head: seq<Field>, kind: Kind, v: Val, buf: seq<byte>, pos: nat)
    requires Typed(Dep(head, kind), v) && Matches(buf, pos, Enc(Dep(head, kind), v, pos))
    ensures Dec(Dep(head, kind), buf, pos) == Some((v, pos + |Enc(Dep(head, kind), v, pos)|))
    decreases Height(Dep(head, kind)), 1
  {
    var hv, tv := v.vs[0].vs, v.vs[1].vs;
    RoundTripTwo(head, TailOf(head, kind, hv).value, hv, tv, buf, pos);
    assert v == T([T(hv), T(tv)]);
  }

  lemma {:induction false} RoundTripSeq(fs: seq<Field>, vs: seq<Val>, buf: seq<byte>, pos: nat)
    requires TypedSeq(fs, vs) && Matches(buf, pos, EncSeq(fs, vs, pos))
    ensures DecSeq(fs, buf, pos) == Some((vs, pos + |EncSeq(fs, vs, pos)|))
    decreases HeightSeq(fs), 3 + |fs|
  {
    if fs == [] {
    } else {
      var e := Enc(fs[0], vs[0], pos);
      MatchesSplit(buf, pos, e, EncSeq(fs[1..], vs[1..], pos + |e|));
      RoundTrip(fs[0], vs[0], buf, pos);
      RoundTripSeq(fs[1..], vs[1..], buf, pos + |e|);
      assert vs == [vs[0]] + vs[1..];
    }
  }

  // No two values of one layout share a buffer, even with different padding.
  lemma Unambiguous(f: Field, v: Val, w: Val, buf: seq<byte>, pos: nat)
    requires Typed(f, v) && Typed(f, w)
    requires Matches(buf, pos, Enc(f, v, pos)) && Matches(buf, pos, Enc(f, w, pos))
    ensures v == w
  {
    RoundTrip(f, v, buf, pos);
    RoundTrip(f, w, buf, pos);
  }

  // --------------------------------------------------------------------------
  // Reading a string back as C does, up to a terminator.
  // --------------------------------------------------------------------------

  function CString(buf: seq<byte>, pos: nat): (r: seq<byte>)
    ensures 0 !in r
    decreases |buf| - pos
  {
    if pos >= |buf| || buf[pos] == 0 then [] else [buf[pos]] + CString(buf, pos + 1)
  }

  lemma {:induction false} CStringOf(s: seq<byte>, buf: seq<byte>, pos: nat)
    requires pos + |s| < |buf| && buf[pos..pos + |s|] == s && 0 !in s && buf[pos + |s|] == 0
    ensures CString(buf, pos) == s
    decreases |s|
  {
    if s == [] {
    } else {
      assert buf[pos..pos + |s|][0] == s[0];
      assert buf[pos + 1..pos + 1 + |s[1..]|] == s[1..];
      CStringOf(s[1..], buf, pos + 1);
    }
  }

  // A decoded string names the characters in place. Reading them up to a
  // terminator gives the string back unless it is empty and the byte after
  // its length, which encoding leaves alone, is not zero.
  lemma StringReadBack(s: seq<byte>, buf: seq<byte>, pos: nat)
    requires IsString(s) && Matches(buf, pos, EncStr(s))
    ensures CString(buf, pos + 4) == s <==> s != [] || buf[pos + 4] == 0
  {
    if s != [] {
      var pad := StrSize(|s|) - |s| - 5;
      LengthMatches(|s|, Puts(s + [0]) + Keeps(pad), buf, pos);
      TextMatches(s, pad, buf, pos + 4);
      CStringOf(s, buf, pos + 4);
    }
  }
}
