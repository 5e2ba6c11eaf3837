// The list of hints that goes with every request: how it is built, which of
// it travels, and what the receiver rebuilds.

module Hints {
  import opened Wire
  import opened Sizes
  import opened Messages
  import opened Protocol
  import opened SizeTable

  type Text = seq<byte>
  datatype Value = Word(n: int) | Chars(s: Text)

  // A hint of a registered kind, or one of kind 0 that is known by its name.
  datatype Hint = Hint(kind: int, name: Text, value: Value)

  const UNKNOWN := 0
  const HANDLE_KIND := 3
  const OP_ID := 4
  const KINDS := 6

  predicate Registered(kind: int) { 1 <= kind <= KINDS }

  // Operation numbers stay with the client.
  predicate Travels(h: Hint) { h.kind != OP_ID }

  predicate Has(items: seq<Hint>, kind: int) {
    exists i :: 0 <= i < |items| && items[i].kind == kind
  }

  // No registered kind occurs twice.
  predicate Proper(items: seq<Hint>) {
    forall i, j :: 0 <= i < j < |items| && items[i].kind != UNKNOWN ==> items[i].kind != items[j].kind
  }

  // --------------------------------------------------------------------------
  // Building a list. New hints go to the front.
  // --------------------------------------------------------------------------

  function Added(items: seq<Hint>, h: Hint): seq<Hint> {
    if h.kind != UNKNOWN && Has(items, h.kind) then items else [h] + items
  }

  // The first hint of its kind gets the new value.
  function Replaced(items: seq<Hint>, kind: int, value: Value): (r: seq<Hint>)
    ensures |r| == |items|
  {
    if items == [] then []
    else if items[0].kind == kind then [items[0].(value := value)] + items[1..]
    else [items[0]] + Replaced(items[1..], kind, value)
  }

  // The first value kept for a kind.
  function Find(items: seq<Hint>, kind: int): Option<Value> {
    if items == [] then None
    else if items[0].kind == kind then Some(items[0].value)
    else Find(items[1..], kind)
  }

  class List {
    var items: seq<Hint>

    constructor ()
      ensures items == []
    {
      items := [];
    }

    // Whether there is a hint of this kind.
    method Check(kind: int) returns (found: bool)
      ensures found <==> Has(items, kind)
    {
      var i := 0;
      while i < |items|
        invariant 0 <= i <= |items| && forall j :: 0 <= j < i ==> items[j].kind != kind
      {
        if items[i].kind == kind {
          return true;
        }
        i := i + 1;
      }
      return false;
    }

    // Adding does not overwrite.
    method Add(h: Hint) returns (added: bool)
      requires Proper(items)
      modifies this
      ensures Proper(items) && items == Added(old(items), h)
      ensures if added then Find(items, h.kind) == Some(h.value) else items == old(items)
      ensures added <==> h.kind == UNKNOWN || !Has(old(items), h.kind)
    {
      if h.kind != UNKNOWN {
        var present := Check(h.kind);
        if present {
          return false;
        }
      }
      items := [h] + items;
      assert items[1..] == old(items);
      return true;
    }

    // Setting does.
    method Set(kind: int, value: Value)
      requires Registered(kind) && Proper(items)
      modifies this
      ensures Proper(items) && Find(items, kind) == Some(value)
      ensures forall k :: k != kind ==> Find(items, k) == Find(old(items), k)
    {
      var found := Check(kind);
      if found {
        ReplacedFind(items, kind, value);
        ReplacedKinds(items, kind, value);
        Overwrite(kind, value);
      } else {
        items := [Hint(kind, [], value)] + items;
        assert items[1..] == old(items);
      }
    }

    method Overwrite(kind: int, value: Value)
      modifies this
      ensures items == Replaced(old(items), kind, value)
    {
      var i := 0;
      while i < |items|
        invariant 0 <= i <= |items| && items == old(items)
        invariant forall j :: 0 <= j < i ==> items[j].kind != kind
      {
        if items[i].kind == kind {
          ReplacedAt(items, kind, value, i);
          items := items[i := items[i].(value := value)];
          return;
        }
        i := i + 1;
      }
      ReplacedAt(items, kind, value, i);
    }
  }

  // Nothing but the first hint of the kind changes.
  lemma {:induction false} ReplacedAt(items: seq<Hint>, kind: int, value: Value, i: nat)
    requires i <= |items| && forall j :: 0 <= j < i ==> items[j].kind != kind
    ensures i == |items| ==> Replaced(items, kind, value) == items
    ensures i < |items| && items[i].kind == kind ==> Replaced(items, kind, value) == items[i := items[i].(value := value)]
    decreases i
  {
    if i == 0 {
    } else {
      ReplacedAt(items[1..], kind, value, i - 1);
      assert items == [items[0]] + items[1..];
    }
  }

  // What is found is the value of the first hint of the kind.
  lemma {:induction false} FindFirst(items: seq<Hint>, kind: int, i: nat)
    requires i <= |items| && forall j :: 0 <= j < i ==> items[j].kind != kind
    ensures i == |items| ==> Find(items, kind) == None
    ensures i < |items| && items[i].kind == kind ==> Find(items, kind) == Some(items[i].value)
    decreases i
  {
    if i > 0 {
      FindFirst(items[1..], kind, i - 1);
    }
  }

  lemma {:induction false} FindHas(items: seq<Hint>, kind: int)
    ensures Find(items, kind).Some? <==> Has(items, kind)
  {
    if items == [] {
    } else if items[0].kind == kind {
    } else {
      FindHas(items[1..], kind);
      assert Has(items, kind) ==> Has(items[1..], kind) by {
        if Has(items, kind) {
          var i :| 0 <= i < |items| && items[i].kind == kind;
          assert items[1..][i - 1].kind == kind;
        }
      }
    }
  }

  lemma {:induction false} ReplacedKinds(items: seq<Hint>, kind: int, value: Value)
    ensures forall i :: 0 <= i < |items| ==> Replaced(items, kind, value)[i].kind == items[i].kind
  {
    if items == [] {
    } else if items[0].kind == kind {
    } else {
      ReplacedKinds(items[1..], kind, value);
    }
  }

  lemma {:induction false} ReplacedFind(items: seq<Hint>, kind: int, value: Value)
    ensures forall k :: k != kind ==> Find(Replaced(items, kind, value), k) == Find(items, k)
    ensures Has(items, kind) ==> Find(Replaced(items, kind, value), kind) == Some(value)
  {
    if items == [] {
    } else if items[0].kind == kind {
      assert ([items[0].(value := value)] + items[1..])[1..] == items[1..];
    } else {
      ReplacedFind(items[1..], kind, value);
      FindHas(items[1..], kind);
      FindHas(items, kind);
      assert ([items[0]] + Replaced(items[1..], kind, value))[1..] == Replaced(items[1..], kind, value);
    }
  }

  // --------------------------------------------------------------------------
  // Sending and rebuilding a list.
  // --------------------------------------------------------------------------

  function Sent(items: seq<Hint>): (r: seq<Hint>)
    ensures forall i :: 0 <= i < |r| ==> Travels(r[i]) && r[i] in items
  {
    if items == [] then []
    else if Travels(items[0]) then [items[0]] + Sent(items[1..])
    else Sent(items[1..])
  }

  // A received hint: one of no registered kind is looked up by its name, in
  // whatever table of names the receiver has.
  function Named(names: map<Text, int>, h: Hint): Hint {
    if Registered(h.kind) then h.(name := [])
    else if h.name in names then Hint(names[h.name], [], h.value)
    else h.(kind := UNKNOWN)
  }

  function Rebuilt(names: map<Text, int>, wire: seq<Hint>): seq<Hint> {
    if wire == [] then []
    else Added(Rebuilt(names, wire[..|wire| - 1]), Named(names, wire[|wire| - 1]))
  }

  // The decoding loop.
  method Rebuild(names: map<Text, int>, wire: seq<Hint>) returns (l: List)
    ensures fresh(l) && Proper(l.items) && l.items == Rebuilt(names, wire)
  {
    l := new List();
    var i := 0;
    while i < |wire|
      invariant 0 <= i <= |wire| && Proper(l.items) && l.items == Rebuilt(names, wire[..i]) && fresh(l)
    {
      assert wire[..i + 1][..i] == wire[..i];
      var added := l.Add(Named(names, wire[i]));
      i := i + 1;
    }
    assert wire[..|wire|] == wire;
  }

  // A hint that could have been added under this table of names.
  predicate Own(names: map<Text, int>, h: Hint) {
    if h.kind == UNKNOWN then h.name !in names else Registered(h.kind) && h.name == []
  }

  function Reversed(s: seq<Hint>): (r: seq<Hint>)
    ensures |r| == |s| && forall i :: 0 <= i < |s| ==> r[i] == s[|s| - 1 - i]
  {
    seq(|s|, i requires 0 <= i < |s| => s[|s| - 1 - i])
  }

  // The receiver's list is the sender's, without what does not travel, in
  // reverse.
  lemma {:induction false} RebuiltReversed(names: map<Text, int>, wire: seq<Hint>)
    requires Proper(wire) && forall h :: h in wire ==> Own(names, h)
    ensures Rebuilt(names, wire) == Reversed(wire)
    decreases |wire|
  {
    if wire == [] {
    } else {
      var n := |wire| - 1;
      RebuiltReversed(names, wire[..n]);
      assert wire[n] in wire;
      ReversedStep(wire);
    }
  }

  lemma ReversedStep(wire: seq<Hint>)
    requires wire != [] && Proper(wire)
    ensures var n := |wire| - 1; Reversed(wire) == Added(Reversed(wire[..n]), wire[n])
  {
    var n := |wire| - 1;
    assert Reversed(wire) == [wire[n]] + Reversed(wire[..n]);
  }

  lemma {:induction false} SentProper(items: seq<Hint>)
    requires Proper(items)
    ensures Proper(Sent(items))
  {
    if items == [] {
    } else {
      SentProper(items[1..]);
      forall i, j | 0 <= i < j < |Sent(items)| && Sent(items)[i].kind != UNKNOWN
        ensures Sent(items)[i].kind != Sent(items)[j].kind
      {
        if i == 0 && Travels(items[0]) {
          var k :| 0 <= k < |items[1..]| && items[1..][k] == Sent(items[1..])[j - 1];
        }
      }
    }
  }

  // What travels, hint by hint: all but the operation number, in order.
  lemma {:induction false} SentOneByOne(items: seq<Hint>, h: Hint)
    ensures Sent([]) == []
    ensures Sent(items + [h]) == if h.kind == 4 then Sent(items) else Sent(items) + [h]
  {
    if items == [] {
      assert [] + [h] == [h];
    } else {
      SentOneByOne(items[1..], h);
      assert (items + [h])[1..] == items[1..] + [h];
    }
  }

  lemma {:induction false} SentAll(items: seq<Hint>)
    requires forall h :: h in items ==> Travels(h)
    ensures Sent(items) == items
  {
    if items == [] {
    } else {
      assert items[0] in items;
      SentAll(items[1..]);
    }
  }

  // What one server receives and passes on reaches the next in the order of the
  // first sender.
  lemma ForwardedInOrder(names: map<Text, int>, items: seq<Hint>)
    requires Proper(items) && forall h :: h in items ==> Own(names, h)
    ensures Rebuilt(names, Sent(items)) == Reversed(Sent(items))
    ensures Rebuilt(names, Sent(Rebuilt(names, Sent(items)))) == Sent(items)
  {
    var s := Sent(items);
    SentProper(items);
    RebuiltReversed(names, s);
    var r := Reversed(s);
    assert Proper(r);
    SentAll(r);
    RebuiltReversed(names, r);
    assert Reversed(r) == s;
  }

  lemma ReversedSameIff(s: seq<Hint>)
    requires Proper(s) && forall h :: h in s ==> Registered(h.kind)
    ensures Reversed(s) == s <==> |s| <= 1
  {
    if |s| > 1 {
      assert s[0] in s && Reversed(s)[0] == s[|s| - 1];
    }
  }

  // So registered hints keep their order exactly when at most one travels.
  lemma OrderKeptIff(names: map<Text, int>, items: seq<Hint>)
    requires Proper(items) && forall h :: h in items ==> Own(names, h) && Registered(h.kind)
    ensures Rebuilt(names, Sent(items)) == Sent(items) <==> |Sent(items)| <= 1
  {
    ForwardedInOrder(names, items);
    SentProper(items);
    ReversedSameIff(Sent(items));
  }

  lemma {:induction false} FindRebuilt(names: map<Text, int>, wire: seq<Hint>, kind: int)
    requires Registered(kind) && forall h :: h in wire ==> Registered(h.kind) || h.name !in names
    ensures Find(Rebuilt(names, wire), kind) == Find(wire, kind)
    decreases |wire|
  {
    if wire == [] {
    } else {
      var n := |wire| - 1;
      FindRebuilt(names, wire[..n], kind);
      var list, h := Rebuilt(names, wire[..n]), Named(names, wire[n]);
      assert wire[n] in wire;
      FindLast(wire, kind);
      FindHas(list, h.kind);
      assert ([h] + list)[1..] == list;
    }
  }

  // The kind a received hint has here: its own if it is registered, and else the
  // one its name stands for.
  function KindHere(names: map<Text, int>, h: Hint): int {
    if 1 <= h.kind <= 6 then h.kind else if h.name in names then names[h.name] else 0
  }

  // What the receiver reads for a kind is the value of the first hint that has
  // it here, by number or by name.
  lemma {:induction false} RebuiltFirst(names: map<Text, int>, wire: seq<Hint>, kind: int, i: nat)
    requires kind != 0 && i <= |wire| && forall j :: 0 <= j < i ==> KindHere(names, wire[j]) != kind
    ensures i == |wire| ==> Find(Rebuilt(names, wire), kind) == None
    ensures i < |wire| && KindHere(names, wire[i]) == kind ==> Find(Rebuilt(names, wire), kind) == Some(wire[i].value)
    decreases |wire|
  {
    if wire == [] {
    } else {
      var n := |wire| - 1;
      var list, h := Rebuilt(names, wire[..n]), Named(names, wire[n]);
      RebuiltFirst(names, wire[..n], kind, if i <= n then i else n);
      FindHas(list, kind);
      assert ([h] + list)[1..] == list;
    }
  }

  lemma {:induction false} FindLast(items: seq<Hint>, kind: int)
    requires items != []
    ensures var n := |items| - 1;
            Find(items, kind) == if Find(items[..n], kind).Some? then Find(items[..n], kind)
                                 else if items[n].kind == kind then Some(items[n].value) else None
    decreases |items|
  {
    if |items| == 1 {
    } else {
      FindLast(items[1..], kind);
      assert items[1..][..|items| - 2] == items[..|items| - 1][1..];
    }
  }

  lemma {:induction false} FindSent(items: seq<Hint>, kind: int)
    ensures Find(Sent(items), kind) == if kind == OP_ID then None else Find(items, kind)
  {
    if items == [] {
    } else {
      FindSent(items[1..], kind);
      if Travels(items[0]) {
        assert Sent(items)[1..] == Sent(items[1..]);
      }
    }
  }

  // The order changes but no answer does: for every registered kind but the
  // operation number, the receiver reads what the sender set.
  lemma ReceiverReads(names: map<Text, int>, items: seq<Hint>, kind: int)
    requires Registered(kind) && forall h :: h in items ==> Own(names, h)
    ensures Find(Rebuilt(names, Sent(items)), kind) == if kind == OP_ID then None else Find(items, kind)
  {
    FindSent(items, kind);
    FindRebuilt(names, Sent(items), kind);
  }

  // --------------------------------------------------------------------------
  // Hints in a message.
  // --------------------------------------------------------------------------

  predicate Carriable(h: Hint) {
    if h.kind == UNKNOWN then h.value.Chars? && IsString(h.name) && IsString(h.value.s)
    else Registered(h.kind) && h.name == [] && h.value.Word? && InRange(if h.kind == HANDLE_KIND then 8 else 4, false, h.value.n)
  }

  function HintValue(h: Hint): Val
    requires Carriable(h)
  {
    T([T([N(h.kind)]), T(if h.kind == UNKNOWN then [B(h.name), B(h.value.s)] else [N(h.value.n)])])
  }

  function HintValues(hs: seq<Hint>): (r: seq<Val>)
    requires forall h :: h in hs ==> Carriable(h)
    ensures |r| == |hs| && forall i :: 0 <= i < |hs| ==> hs[i] in hs && r[i] == HintValue(hs[i])
  {
    seq(|hs|, i requires 0 <= i < |hs| => assert hs[i] in hs; HintValue(hs[i]))
  }

  function ListValue(hs: seq<Hint>): Val
    requires forall h :: h in hs ==> Carriable(h)
  {
    T([T([N(|hs|)]), T(HintValues(hs))])
  }

  lemma KindTyped(kind: int, pos: nat)
    requires 0 <= kind <= KINDS
    ensures TypedSeq([U32], [N(kind)]) && |EncSeq([U32], [N(kind)], pos)| == 4
  {
    assert Pow256(4) >= 256 by { assert Pow256(4) == 256 * Pow256(3); }
    OneField(U32, N(kind), pos);
  }

  lemma KnownPart(h: Hint)
    requires Carriable(h) && h.kind != UNKNOWN
    ensures First(HINT.kind.parts, [N(h.kind)]) == Some([if h.kind == HANDLE_KIND then U64 else U32])
  {
    FirstIs(HINT.kind.parts, [N(h.kind)], h.kind - 1);
  }

  lemma NamedPart()
    ensures First(HINT.kind.parts, [N(UNKNOWN)]) == Some([Str, Str])
  {
    FirstIs(HINT.kind.parts, [N(UNKNOWN)], 6);
  }

  lemma HintTyped(h: Hint)
    requires Carriable(h)
    ensures Typed(HINT, HintValue(h))
  {
    KindTyped(h.kind, 0);
    if h.kind == UNKNOWN {
      NamedPart();
      TwoFields(Str, Str, B(h.name), B(h.value.s), 0);
    } else {
      KnownPart(h);
      OneField(if h.kind == HANDLE_KIND then U64 else U32, N(h.value.n), 0);
    }
  }

  lemma KnownSize(h: Hint)
    requires Carriable(h) && h.kind != UNKNOWN
    ensures AtMost(HINT, HintValue(h), 12)
  {
    HintTyped(h);
    forall p: nat ensures |Enc(HINT, HintValue(h), p)| <= 12 {
      KindTyped(h.kind, p);
      KnownPart(h);
      OneField(if h.kind == HANDLE_KIND then U64 else U32, N(h.value.n), p + 4);
    }
  }

  lemma ListTyped(hs: seq<Hint>)
    requires InRange(4, true, |hs|) && forall h :: h in hs ==> Carriable(h)
    ensures Typed(HINTS, ListValue(hs))
  {
    forall i | 0 <= i < |hs| ensures Typed(HINT, HintValues(hs)[i]) {
      HintTyped(hs[i]);
    }
    CopiesTyped(HINT, HintValues(hs));
    NoMoreGroups(HINT, |hs|);
    OneField(I32, N(|hs|), 0);
  }

  lemma {:induction false} OneEach(hs: seq<Hint>, k: nat)
    requires Proper(hs) && forall i :: 0 <= i < |hs| ==> 1 <= hs[i].kind <= k
    ensures |hs| <= k
    decreases k
  {
    assert hs != [] ==> hs[0].kind <= k;
    if i :| 0 <= i < |hs| && hs[i].kind == k {
      var rest := hs[..i] + hs[i + 1..];
      assert forall j :: 0 <= j < |rest| ==> rest[j] == hs[if j < i then j else j + 1];
      OneEach(rest, k - 1);
    } else if k > 0 {
      OneEach(hs, k - 1);
    }
  }

  // Hints of registered kinds, each at most once, always fit the room that the
  // size table keeps for them.
  lemma RegisteredFit(hs: seq<Hint>, pos: nat)
    requires Proper(hs) && forall h :: h in hs ==> Carriable(h) && Registered(h.kind)
    ensures Typed(HINTS, ListValue(hs)) && |Enc(HINTS, ListValue(hs), pos)| <= HINT_ROOM
  {
    OneEach(hs, KINDS);
    assert Pow256(4) >= 256 by { assert Pow256(4) == 256 * Pow256(3); }
    ListTyped(hs);
    forall i | 0 <= i < |hs| ensures AtMost(HINT, HintValues(hs)[i], 12) {
      KnownSize(hs[i]);
    }
    ArrayBound([I32], 0, HINT, ListValue(hs), pos, 12);
  }

  // A list of properly added hints of registered kinds, sent with a request that
  // keeps its own limit: the request fits.
  lemma RequestWithHintsFits(v: Version, r: Request, items: seq<Hint>)
    requires Proper(items) && forall h :: h in items ==> Carriable(h) && Registered(h.kind)
    requires r.hints == ListValue(Sent(items))
    requires Sendable(v) && ValidReq(r) && (ReqEntry(r.op) in NAMED || ReqEntry(r.op) in LISTED)
    requires WithinSeq(ReqBody(r.op), r.body, ReqEntry(r.op).limits)
    ensures RequestWithin(r) && |ReqCells(v, r)| <= MaxReq(r.op)
  {
    SentProper(items);
    RegisteredFit(Sent(items), 24);
    RequestFits(v, r);
  }

  // The hints of a decoded request, as the decoder hands them to the list.
  function HintOf(v: Val): Option<Hint> {
    if v.T? && |v.vs| == 2 && v.vs[0].T? && v.vs[1].T? && |v.vs[0].vs| == 1 && v.vs[0].vs[0].N? then
      var kind, body := v.vs[0].vs[0].n, v.vs[1].vs;
      if Registered(kind) && |body| == 1 && body[0].N? then Some(Hint(kind, [], Word(body[0].n)))
      else if !Registered(kind) && |body| == 2 && body[0].B? && body[1].B? then Some(Hint(kind, body[0].b, Chars(body[1].b)))
      else None
    else None
  }

  predicate Carries(list: Val, wire: seq<Hint>) {
    && list.T? && |list.vs| == 2 && list.vs[1].T? && |list.vs[1].vs| == |wire|
    && forall i :: 0 <= i < |wire| ==> HintOf(list.vs[1].vs[i]) == Some(wire[i])
  }

  // Whatever the buffer held before: the decoded request carries the hints that
  // were sent, and they are rebuilt in reverse.
  lemma HintsArrive(theirs: Version, mine: Version, r: Request, buf: seq<byte>, names: map<Text, int>, items: seq<Hint>)
    requires Proper(items) && forall h :: h in items ==> Carriable(h) && Own(names, h)
    requires r.hints == ListValue(Sent(items)) && Sendable(theirs) && ValidReq(r) && Decodable(r.op)
    requires Matches(buf, 0, ReqCells(theirs, r)) && |buf| == |ReqCells(theirs, r)|
    requires theirs.major == mine.major && theirs.minor <= mine.minor
    ensures DecodeReq(mine, buf).Ok? && Carries(DecodeReq(mine, buf).value.hints, Sent(items))
    ensures Rebuilt(names, Sent(items)) == Reversed(Sent(items))
  {
    RequestRoundTrip(theirs, mine, r, buf);
    var s := Sent(items);
    forall i | 0 <= i < |s| ensures HintOf(HintValues(s)[i]) == Some(s[i]) {
      assert s[i] in items;
    }
    ForwardedInOrder(names, items);
  }
}
