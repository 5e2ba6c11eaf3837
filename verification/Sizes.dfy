// Sizes of encoded values, computed from the layout: the size of a freshly
// initialised structure, and how much its arrays and strings can add to it.

module Sizes {
  import opened Wire

  // --------------------------------------------------------------------------
  // The size of a freshly initialised structure.
  // --------------------------------------------------------------------------

  function InitSize(f: Field): nat
    decreases f
  {
    match f
    case Num(w, _) => w
    case Skip(n) => n
    case Str => 8
    case KeyVal => 8
    case Rec(fields) => InitSizeSeq(fields)
    case Dep(head, kind) => InitSizeSeq(head) + (if kind.Counted? then InitSizeSeq(kind.after) else 0)
    case _ => 0
  }

  function InitSizeSeq(fs: seq<Field>): nat
    decreases fs
  {
    if fs == [] then 0 else InitSize(fs[0]) + InitSizeSeq(fs[1..])
  }

  // Layouts whose initial size does not depend on names or on alignment.
  predicate Plain(f: Field)
    decreases f
  {
    match f
    case Align => false
    case Raw(_) => false
    case Rec(fields) => PlainSeq(fields)
    case Dep(head, kind) => PlainSeq(head) && !kind.OneOf? && (kind.Counted? ==> kind.plus == 0 && PlainSeq(kind.after))
    case _ => true
  }

  predicate PlainSeq(fs: seq<Field>)
    decreases fs
  {
    fs == [] || (Plain(fs[0]) && PlainSeq(fs[1..]))
  }

  // Empty arrays, names of at most three characters, and no optional part.
  predicate Initial(f: Field, v: Val)
    requires Typed(f, v)
    decreases Height(f), 0
  {
    match f
    case Str => |v.b| <= 3
    case KeyVal => |v.b| == 0
    case Rec(fields) => InitialSeq(fields, v.vs)
    case Dep(head, kind) =>
      && InitialSeq(head, v.vs[0].vs)
      && InitialSeq(TailOf(head, kind, v.vs[0].vs).value, v.vs[1].vs)
      && (kind.Counted? ==> v.vs[0].vs[kind.at] == N(0))
      && (kind.When? ==> forall i :: 0 <= i < |kind.parts| ==> !Holds(kind.parts[i].guard, v.vs[0].vs))
      && (kind.Payload? ==> TailOf(head, kind, v.vs[0].vs).value == [])
    case _ => true
  }

  predicate InitialSeq(fs: seq<Field>, vs: seq<Val>)
    requires TypedSeq(fs, vs)
    decreases HeightSeq(fs), 1 + |fs|
  {
    fs == [] || (Initial(fs[0], vs[0]) && InitialSeq(fs[1..], vs[1..]))
  }

  lemma {:induction false} NothingPresent(parts: seq<Part>, head: seq<Val>, vs: seq<Val>, pos: nat)
    requires forall i :: 0 <= i < |parts| ==> !Holds(parts[i].guard, head)
    requires TypedSeq(Present(parts, head), vs)
    ensures EncSeq(Present(parts, head), vs, pos) == []
    decreases |parts|
  {
    if parts == [] {
    } else {
      var fs := Present(parts, head);
      assert fs[1..] == Present(parts[1..], head);
      assert fs[0] == Rec([]);
      assert Enc(fs[0], vs[0], pos) == [];
      NothingPresent(parts[1..], head, vs[1..], pos);
    }
  }

  lemma {:induction false} NoGroups(groups: seq<Field>, n: int)
    requires n <= 0
    ensures Groups(groups, n) == []
  {
    if groups != [] { NoGroups(groups[1..], n); }
  }

  lemma InitTail(head: seq<Field>, kind: Kind, v: Val)
    requires Typed(Dep(head, kind), v) && Plain(Dep(head, kind)) && Initial(Dep(head, kind), v) && !kind.When?
    ensures TailOf(head, kind, v.vs[0].vs).value == if kind.Counted? then kind.after else []
  {
    if kind.Counted? { NoGroups(kind.groups, 0); }
  }

  lemma {:induction false} InitExact(f: Field, v: Val, pos: nat)
    requires Typed(f, v) && Plain(f) && Initial(f, v)
    ensures |Enc(f, v, pos)| == InitSize(f)
    decreases Height(f), 0
  {
    match f
    case Rec(fields) => InitExactSeq(fields, v.vs, pos);
    case Dep(head, kind) =>
      var hv := v.vs[0].vs;
      InitExactSeq(head, hv, pos);
      var h := EncSeq(head, hv, pos);
      if kind.When? {
        NothingPresent(kind.parts, hv, v.vs[1].vs, pos + |h|);
      } else {
        InitTail(head, kind, v);
        InitExactSeq(TailOf(head, kind, hv).value, v.vs[1].vs, pos + |h|);
      }
    case _ =>
  }

  lemma {:induction false} InitExactSeq(fs: seq<Field>, vs: seq<Val>, pos: nat)
    requires TypedSeq(fs, vs) && PlainSeq(fs) && InitialSeq(fs, vs)
    ensures |EncSeq(fs, vs, pos)| == InitSizeSeq(fs)
    decreases HeightSeq(fs), 1 + |fs|
  {
    if fs == [] {
    } else {
      InitExact(fs[0], vs[0], pos);
      InitExactSeq(fs[1..], vs[1..], pos + |Enc(fs[0], vs[0], pos)|);
    }
  }

  predicate IsFixed(f: Field) { f.Num? || f.Skip? }

  // Fields of fixed width have one size whatever their values.
  lemma {:induction false} FixedExact(fs: seq<Field>, vs: seq<Val>, pos: nat)
    requires TypedSeq(fs, vs) && forall i :: 0 <= i < |fs| ==> IsFixed(fs[i])
    ensures |EncSeq(fs, vs, pos)| == InitSizeSeq(fs)
    decreases |fs|
  {
    if fs == [] {
    } else {
      FixedExact(fs[1..], vs[1..], pos + |Enc(fs[0], vs[0], pos)|);
    }
  }

  // --------------------------------------------------------------------------
  // What arrays and strings can add.
  // --------------------------------------------------------------------------

  // Limits on a message: elements per array, characters per string.
  datatype Limits = Limits(count: nat, text: nat)

  function Slack(f: Field, lim: Limits): nat
    decreases f
  {
    match f
    case Align => 7
    case Str => StrSize(lim.text) - 8
    case KeyVal => KeyValSize(lim.text) - 8
    case Raw(n) => n
    case Rec(fields) => SlackSeq(fields, lim)
    case Dep(head, kind) => SlackSeq(head, lim) + SlackTail(kind, lim)
    case _ => 0
  }

  function SlackSeq(fs: seq<Field>, lim: Limits): nat
    decreases fs
  {
    if fs == [] then 0 else Slack(fs[0], lim) + SlackSeq(fs[1..], lim)
  }

  function SlackTail(kind: Kind, lim: Limits): nat
    decreases kind
  {
    match kind
    case Counted(_, _, groups, after) => lim.count * (InitSizeSeq(groups) + SlackSeq(groups, lim)) + SlackSeq(after, lim)
    case When(parts) => SlackParts(parts, lim)
    case OneOf(parts) => SlackParts(parts, lim)
    case Payload(_, _, _) => lim.text
  }

  function SlackParts(parts: seq<Part>, lim: Limits): nat
    decreases parts
  {
    if parts == [] then 0
    else InitSizeSeq(parts[0].fields) + SlackSeq(parts[0].fields, lim) + SlackParts(parts[1..], lim)
  }

  function Room(fs: seq<Field>, lim: Limits): nat {
    InitSizeSeq(fs) + SlackSeq(fs, lim)
  }

  // A value that keeps the limits wherever a count or a string occurs.
  predicate Within(f: Field, v: Val, lim: Limits)
    requires Typed(f, v)
    decreases Height(f), 0
  {
    match f
    case Str => |v.b| <= lim.text
    case KeyVal => |v.b| <= lim.text
    case Raw(n) => n <= lim.text
    case Rec(fields) => WithinSeq(fields, v.vs, lim)
    case Dep(head, kind) =>
      && WithinSeq(head, v.vs[0].vs, lim)
      && WithinSeq(TailOf(head, kind, v.vs[0].vs).value, v.vs[1].vs, lim)
      && (kind.Counted? ==> v.vs[0].vs[kind.at].n + kind.plus <= lim.count)
    case _ => true
  }

  predicate WithinSeq(fs: seq<Field>, vs: seq<Val>, lim: Limits)
    requires TypedSeq(fs, vs)
    decreases HeightSeq(fs), 1 + |fs|
  {
    fs == [] || (Within(fs[0], vs[0], lim) && WithinSeq(fs[1..], vs[1..], lim))
  }

  lemma StrSizeMonotone(a: nat, b: nat)
    requires a <= b
    ensures StrSize(a) <= StrSize(b) && KeyValSize(a) <= KeyValSize(b)
  {
  }

  lemma Distribute(n: nat, a: nat, b: nat)
    ensures n * (a + b) == n * a + n * b
  {
  }

  lemma TimesMonotone(m: nat, n: nat, a: nat)
    requires m <= n
    ensures m * a <= n * a
  {
  }

  lemma TimesStep(n: nat, a: nat)
    requires n > 0
    ensures n * a == a + (n - 1) * a
  {
  }

  lemma Single(f: Field, lim: Limits)
    ensures InitSizeSeq([f]) == InitSize(f) && SlackSeq([f], lim) == Slack(f, lim)
  {
    assert [f][1..] == [];
  }

  lemma Pair(f: Field, g: Field)
    ensures InitSizeSeq([f, g]) == InitSize(f) + InitSize(g)
  {
    assert [f, g][1..] == [g];
    assert InitSizeSeq([g]) == InitSize(g);
  }

  lemma Four(f: Field, g: Field, x: Field, y: Field)
    ensures InitSizeSeq([f, g, x, y]) == InitSize(f) + InitSize(g) + InitSize(x) + InitSize(y)
  {
    Pair(x, y);
    assert [f, g, x, y][1..] == [g, x, y];
    assert [g, x, y][1..] == [x, y];
  }

  lemma {:induction false} RoomAppend(a: seq<Field>, b: seq<Field>, lim: Limits)
    ensures InitSizeSeq(a + b) == InitSizeSeq(a) + InitSizeSeq(b)
    ensures SlackSeq(a + b, lim) == SlackSeq(a, lim) + SlackSeq(b, lim)
    decreases |a|
  {
    if a == [] {
      assert a + b == b;
    } else {
      RoomAppend(a[1..], b, lim);
      assert (a + b)[1..] == a[1..] + b;
    }
  }

  lemma {:induction false} RoomCopies(f: Field, n: nat, lim: Limits)
    ensures Room(Copies(f, n), lim) == n * (InitSize(f) + Slack(f, lim))
  {
    if n == 0 {
    } else {
      RoomCopies(f, n - 1, lim);
      assert Copies(f, n)[1..] == Copies(f, n - 1);
      assert Room(Copies(f, n), lim) == InitSize(f) + Slack(f, lim) + Room(Copies(f, n - 1), lim);
      TimesStep(n, InitSize(f) + Slack(f, lim));
    }
  }

  lemma {:induction false} RoomGroups(groups: seq<Field>, n: nat, lim: Limits)
    ensures Room(Groups(groups, n), lim) == n * Room(groups, lim)
    decreases |groups|
  {
    if groups == [] {
    } else {
      RoomGroups(groups[1..], n, lim);
      RoomCopies(groups[0], n, lim);
      Distribute(n, InitSize(groups[0]) + Slack(groups[0], lim), Room(groups[1..], lim));
      RoomAppend(Copies(groups[0], n), Groups(groups[1..], n), lim);
    }
  }

  lemma {:induction false} RoomPresent(parts: seq<Part>, head: seq<Val>, lim: Limits)
    ensures Room(Present(parts, head), lim) <= SlackParts(parts, lim)
    decreases |parts|
  {
    if parts == [] {
    } else {
      RoomPresent(parts[1..], head, lim);
      assert Present(parts, head)[1..] == Present(parts[1..], head);
      var fields := if Holds(parts[0].guard, head) then parts[0].fields else [];
      assert InitSize(Rec(fields)) + Slack(Rec(fields), lim) == Room(fields, lim);
      assert Present(parts, head)[0] == Rec(fields);
    }
  }

  lemma {:induction false} RoomFirst(parts: seq<Part>, head: seq<Val>, lim: Limits)
    ensures First(parts, head).Some? ==> Room(First(parts, head).value, lim) <= SlackParts(parts, lim)
    decreases |parts|
  {
    if parts == [] {
    } else {
      RoomFirst(parts[1..], head, lim);
    }
  }

  lemma RoomArrays(groups: seq<Field>, after: seq<Field>, n: int, lim: Limits)
    requires n <= lim.count
    ensures Room(Groups(groups, n) + after, lim) <= lim.count * Room(groups, lim) + Room(after, lim)
  {
    RoomAppend(Groups(groups, n), after, lim);
    if n <= 0 {
      NoGroups(groups, n);
    } else {
      RoomGroups(groups, n, lim);
      TimesMonotone(n, lim.count, Room(groups, lim));
    }
  }

  lemma RoomTail(kind: Kind, head: seq<Val>, lim: Limits)
    requires Tail(kind, head).Some? && (kind.Counted? ==> head[kind.at].n + kind.plus <= lim.count)
    requires kind.Payload? && Tail(kind, head).value != [] ==> Tail(kind, head).value[0].n <= lim.text
    ensures Room(Tail(kind, head).value, lim) <= (if kind.Counted? then InitSizeSeq(kind.after) else 0) + SlackTail(kind, lim)
  {
    match kind
    case Counted(at, plus, groups, after) => RoomArrays(groups, after, head[at].n + plus, lim);
    case When(parts) => RoomPresent(parts, head, lim);
    case OneOf(parts) => RoomFirst(parts, head, lim);
    case Payload(_, _, _) =>
      if Tail(kind, head).value != [] { Single(Tail(kind, head).value[0], lim); }
  }

  // No value within the limits needs more room than its layout says.
  lemma {:induction false} EncBound(f: Field, v: Val, pos: nat, lim: Limits)
    requires Typed(f, v) && Within(f, v, lim)
    ensures |Enc(f, v, pos)| <= InitSize(f) + Slack(f, lim)
    decreases Height(f), 1
  {
    match f
    case Str => StrSizeMonotone(|v.b|, lim.text);
    case KeyVal => StrSizeMonotone(|v.b|, lim.text);
    case Rec(fields) => EncBoundSeq(fields, v.vs, pos, lim);
    case Dep(head, kind) => EncBoundDep(head, kind, v, pos, lim);
    case _ =>
  }

  lemma {:induction false} EncBoundDep(head: seq<Field>, kind: Kind, v: Val, pos: nat, lim: Limits)
    requires Typed(Dep(head, kind), v) && Within(Dep(head, kind), v, lim)
    ensures |Enc(Dep(head, kind), v, pos)| <= InitSize(Dep(head, kind)) + Slack(Dep(head, kind), lim)
    decreases Height(Dep(head, kind)), 0
  {
    var hv, tv := v.vs[0].vs, v.vs[1].vs;
    var tail := TailOf(head, kind, hv).value;
    EncBoundSeq(head, hv, pos, lim);
    EncBoundSeq(tail, tv, pos + |EncSeq(head, hv, pos)|, lim);
    if kind.Payload? && tail != [] { assert Within(tail[0], tv[0], lim); }
    RoomTail(kind, hv, lim);
  }

  lemma {:induction false} EncBoundSeq(fs: seq<Field>, vs: seq<Val>, pos: nat, lim: Limits)
    requires TypedSeq(fs, vs) && WithinSeq(fs, vs, lim)
    ensures |EncSeq(fs, vs, pos)| <= Room(fs, lim)
    decreases HeightSeq(fs), 2 + |fs|
  {
    if fs == [] {
    } else {
      EncBound(fs[0], vs[0], pos, lim);
      EncBoundSeq(fs[1..], vs[1..], pos + |Enc(fs[0], vs[0], pos)|, lim);
    }
  }

  // When at most one field varies, it alone decides the slack.
  lemma {:induction false} FixedSlack(fs: seq<Field>, lim: Limits)
    requires forall i :: 0 <= i < |fs| ==> IsFixed(fs[i])
    ensures SlackSeq(fs, lim) == 0
    decreases |fs|
  {
    if fs == [] {
    } else {
      FixedSlack(fs[1..], lim);
    }
  }

  lemma {:induction false} OneVaries(fs: seq<Field>, k: nat, lim: Limits)
    requires k < |fs| && forall i :: 0 <= i < |fs| && i != k ==> IsFixed(fs[i])
    ensures SlackSeq(fs, lim) == Slack(fs[k], lim)
    decreases |fs|
  {
    if k == 0 {
      FixedSlack(fs[1..], lim);
    } else {
      OneVaries(fs[1..], k - 1, lim);
    }
  }

  // An array of elements without variable parts, after a fixed head.
  lemma ArraySlack(head: seq<Field>, at: nat, elem: Field, lim: Limits)
    requires forall i :: 0 <= i < |head| ==> IsFixed(head[i])
    requires Slack(elem, lim) == 0
    ensures Slack(Dep(head, Counted(at, 0, [elem], [])), lim) == lim.count * InitSize(elem)
  {
    FixedSlack(head, lim);
    Single(elem, lim);
  }

  lemma {:induction false} EncAppend(fs: seq<Field>, vs: seq<Val>, gs: seq<Field>, ws: seq<Val>, pos: nat)
    requires |fs| == |vs|
    ensures TypedSeq(fs + gs, vs + ws) <==> TypedSeq(fs, vs) && TypedSeq(gs, ws)
    ensures TypedSeq(fs + gs, vs + ws) ==>
              var a := EncSeq(fs, vs, pos);
              |EncSeq(fs + gs, vs + ws, pos)| == |a| + |EncSeq(gs, ws, pos + |a|)|
    decreases |fs|
  {
    if fs == [] {
      assert fs + gs == gs && vs + ws == ws;
    } else {
      assert (fs + gs)[1..] == fs[1..] + gs && (vs + ws)[1..] == vs[1..] + ws;
      assert (fs + gs)[0] == fs[0] && (vs + ws)[0] == vs[0];
      if Typed(fs[0], vs[0]) {
        EncAppend(fs[1..], vs[1..], gs, ws, pos + |Enc(fs[0], vs[0], pos)|);
      }
    }
  }

  lemma {:induction false} FirstIs(parts: seq<Part>, head: seq<Val>, k: nat)
    requires k < |parts| && Holds(parts[k].guard, head)
    requires forall i :: 0 <= i < k ==> !Holds(parts[i].guard, head)
    ensures First(parts, head) == Some(parts[k].fields)
    decreases k
  {
    if k > 0 {
      FirstIs(parts[1..], head, k - 1);
    }
  }

  ghost predicate AtMost(f: Field, v: Val, k: nat) {
    Typed(f, v) && forall p: nat :: |Enc(f, v, p)| <= k
  }

  lemma CopiesStep(f: Field, n: nat, vs: seq<Val>, pos: nat)
    requires n > 0 && TypedSeq(Copies(f, n), vs)
    ensures vs != [] && Typed(f, vs[0]) && TypedSeq(Copies(f, n - 1), vs[1..])
    ensures var e := Enc(f, vs[0], pos);
            EncSeq(Copies(f, n), vs, pos) == e + EncSeq(Copies(f, n - 1), vs[1..], pos + |e|)
  {
    assert Copies(f, n)[1..] == Copies(f, n - 1);
  }

  // Elements of bounded size make an array of bounded size.
  lemma {:induction false} EncCopies(f: Field, n: nat, vs: seq<Val>, pos: nat, k: nat)
    requires TypedSeq(Copies(f, n), vs)
    requires forall i :: 0 <= i < |vs| ==> AtMost(f, vs[i], k)
    ensures |EncSeq(Copies(f, n), vs, pos)| <= n * k
    decreases n
  {
    if n == 0 {
    } else {
      CopiesStep(f, n, vs, pos);
      EncCopies(f, n - 1, vs[1..], pos + |Enc(f, vs[0], pos)|, k);
      assert AtMost(f, vs[0], k);
      TimesStep(n, k);
    }
  }

  lemma ArrayOf(head: seq<Field>, at: nat, elem: Field, v: Val)
    requires Typed(Dep(head, Counted(at, 0, [elem], [])), v)
    ensures at < |v.vs[0].vs| && v.vs[0].vs[at].N?
    ensures TypedSeq(Copies(elem, v.vs[0].vs[at].n), v.vs[1].vs)
    ensures TailOf(head, Counted(at, 0, [elem], []), v.vs[0].vs).value == Copies(elem, v.vs[0].vs[at].n)
  {
    var n := v.vs[0].vs[at].n;
    assert Groups([elem][1..], n) == [];
    assert Groups([elem], n) + [] == Copies(elem, n);
  }

  // The array of a counted field, when every element is of bounded size.
  lemma ArrayBound(head: seq<Field>, at: nat, elem: Field, v: Val, pos: nat, k: nat)
    requires Typed(Dep(head, Counted(at, 0, [elem], [])), v)
    requires forall i :: 0 <= i < |head| ==> IsFixed(head[i])
    requires forall i :: 0 <= i < |v.vs[1].vs| ==> AtMost(elem, v.vs[1].vs[i], k)
    ensures |Enc(Dep(head, Counted(at, 0, [elem], [])), v, pos)| <= InitSizeSeq(head) + |v.vs[1].vs| * k
  {
    ArrayOf(head, at, elem, v);
    var hv, tv := v.vs[0].vs, v.vs[1].vs;
    FixedExact(head, hv, pos);
    var n := hv[at].n;
    if n >= 0 {
      EncCopies(elem, n, tv, pos + |EncSeq(head, hv, pos)|, k);
    }
  }
}
