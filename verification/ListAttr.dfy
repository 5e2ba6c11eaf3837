// Attributes of many objects at once: one nested machine per handle, and the
// loop that puts their results back, in whatever order they come.

module ListAttr {

  type Handle = nat

  const ENOMEM := -8

  datatype Slot = Slot(attr: int, error: int)

  // --------------------------------------------------------------------------
  // Setting up.
  // --------------------------------------------------------------------------

  // A slot gets a machine of its own unless its attributes could not be read
  // or its frame could not be made.
  predicate Pushed(errors: seq<int>, framed: nat -> bool, i: nat)
    requires i < |errors|
  {
    errors[i] == 0 && framed(i)
  }

  function Frames(errors: seq<int>, framed: nat -> bool, n: nat): seq<nat>
    requires n <= |errors|
  {
    if n == 0 then []
    else Frames(errors, framed, n - 1) + (if Pushed(errors, framed, n - 1) then [n - 1] else [])
  }

  method SetupGetattr(errors: array<int>, framed: nat -> bool) returns (frames: seq<nat>)
    modifies errors
    ensures frames == Frames(old(errors[..]), framed, errors.Length)
    ensures forall i :: 0 <= i < errors.Length ==>
      errors[i] == if old(errors[i]) == 0 && !framed(i) then ENOMEM else old(errors[i])
  {
    ghost var before := errors[..];
    frames := [];
    var i := 0;
    while i < errors.Length
      invariant 0 <= i <= errors.Length && frames == Frames(before, framed, i)
      invariant forall j :: 0 <= j < i ==> errors[j] == if before[j] == 0 && !framed(j) then ENOMEM else before[j]
      invariant forall j :: i <= j < errors.Length ==> errors[j] == before[j]
    {
      if errors[i] == 0 {
        if framed(i) {
          frames := frames + [i];
        } else {
          errors[i] := ENOMEM;
        }
      }
      i := i + 1;
    }
  }

  lemma {:induction false} FramesExact(errors: seq<int>, framed: nat -> bool, n: nat)
    requires n <= |errors|
    ensures forall i :: i in Frames(errors, framed, n) <==> 0 <= i < n && Pushed(errors, framed, i)
  {
    if n > 0 {
      FramesExact(errors, framed, n - 1);
    }
  }

  // --------------------------------------------------------------------------
  // Gathering.
  // --------------------------------------------------------------------------

  // The slot a result is matched up with: the first one for its handle.
  function First(handles: seq<Handle>, h: Handle): (r: nat)
    requires h in handles
    ensures r < |handles| && handles[r] == h && forall i :: 0 <= i < r ==> handles[i] != h
  {
    if handles[0] == h then 0 else 1 + First(handles[1..], h)
  }

  predicate InBounds(order: seq<nat>, n: nat) {
    forall i :: 0 <= i < |order| ==> order[i] < n
  }

  // The slots after the machines in `order` were popped, with results `res`.
  function Gathered(handles: seq<Handle>, order: seq<nat>, res: seq<Slot>, slots: seq<Slot>): (r: seq<Slot>)
    requires |slots| == |res| == |handles| && InBounds(order, |handles|)
    ensures |r| == |slots|
    decreases |order|
  {
    if order == [] then slots
    else
      Gathered(handles, order[1..], res, slots[First(handles, handles[order[0]]) := res[order[0]]])
  }

  // The matching loop for one result.
  method Match(handles: seq<Handle>, h: Handle, r: Slot, attrs: array<int>, errors: array<int>)
    requires attrs != errors && attrs.Length == errors.Length == |handles| && h in handles
    modifies attrs, errors
    ensures var at := First(handles, h);
            attrs[..] == old(attrs[..])[at := r.attr] && errors[..] == old(errors[..])[at := r.error]
  {
    var j := 0;
    while j < |handles|
      invariant 0 <= j <= First(handles, h)
      invariant attrs[..] == old(attrs[..]) && errors[..] == old(errors[..])
      decreases |handles| - j
    {
      if handles[j] == h {
        assert j == First(handles, h);
        attrs[j] := r.attr;
        errors[j] := r.error;
        return;
      }
      j := j + 1;
    }
  }

  function Zip(attrs: seq<int>, errors: seq<int>): (r: seq<Slot>)
    requires |attrs| == |errors|
    ensures |r| == |attrs|
  {
    seq(|attrs|, i requires 0 <= i < |attrs| => Slot(attrs[i], errors[i]))
  }

  method InterpretGetattrs(handles: seq<Handle>, order: seq<nat>, res: seq<Slot>, attrs: array<int>, errors: array<int>)
    requires attrs != errors && attrs.Length == errors.Length == |res| == |handles|
    requires InBounds(order, |handles|)
    modifies attrs, errors
    ensures Zip(attrs[..], errors[..]) == Gathered(handles, order, res, old(Zip(attrs[..], errors[..])))
  {
    ghost var start := Zip(attrs[..], errors[..]);
    var i := 0;
    assert order[0..] == order;
    while i < |order|
      invariant 0 <= i <= |order|
      invariant Gathered(handles, order[i..], res, Zip(attrs[..], errors[..])) == Gathered(handles, order, res, start)
    {
      ghost var now := Zip(attrs[..], errors[..]);
      var k := order[i];
      ghost var at := First(handles, handles[k]);
      Match(handles, handles[k], res[k], attrs, errors);
      assert Zip(attrs[..], errors[..]) == now[at := res[k]];
      assert order[i..][0] == k && order[i..][1..] == order[i + 1..];
      i := i + 1;
    }
  }

  // --------------------------------------------------------------------------
  // Which requests get every result into its own slot.
  // --------------------------------------------------------------------------

  // No slot with a machine repeats the handle of an earlier slot.
  predicate NoTwins(handles: seq<Handle>, pushed: set<nat>) {
    forall i, j :: 0 <= i < j < |handles| && j in pushed ==> handles[i] != handles[j]
  }

  ghost predicate OrderOf(order: seq<nat>, pushed: set<nat>) {
    (forall k :: k in order <==> k in pushed) && forall i, j :: 0 <= i < j < |order| ==> order[i] != order[j]
  }

  lemma {:induction false} GatheredAt(handles: seq<Handle>, order: seq<nat>, res: seq<Slot>, slots: seq<Slot>, j: nat)
    requires |slots| == |res| == |handles| && j < |handles|
    requires InBounds(order, |handles|) && forall i :: 0 <= i < |order| ==> First(handles, handles[order[i]]) == order[i]
    ensures Gathered(handles, order, res, slots)[j] == if j in order then res[j] else slots[j]
    decreases |order|
  {
    if order != [] {
      var k := order[0];
      GatheredAt(handles, order[1..], res, slots[k := res[k]], j);
      assert order == [k] + order[1..];
    }
  }

  // Whatever order the machines are popped in, every slot with a machine ends
  // with its result and every other slot keeps the error it had.
  lemma Confluence(handles: seq<Handle>, pushed: set<nat>, order: seq<nat>, res: seq<Slot>, slots: seq<Slot>, j: nat)
    requires NoTwins(handles, pushed) && OrderOf(order, pushed) && InBounds(order, |handles|)
    requires |slots| == |res| == |handles| && j < |handles|
    ensures Gathered(handles, order, res, slots)[j] == if j in pushed then res[j] else slots[j]
  {
    assert forall i :: 0 <= i < |order| ==> order[i] in order;
    GatheredAt(handles, order, res, slots, j);
  }

  ghost predicate EveryResultArrives(handles: seq<Handle>, pushed: set<nat>)
    requires forall k :: k in pushed ==> k < |handles|
  {
    forall order: seq<nat>, res: seq<Slot>, slots: seq<Slot>, j ::
      OrderOf(order, pushed) && InBounds(order, |handles|) && |slots| == |res| == |handles| && 0 <= j < |handles| ==>
        Gathered(handles, order, res, slots)[j] == if j in pushed then res[j] else slots[j]
  }

  lemma AllArrive(handles: seq<Handle>, pushed: set<nat>)
    requires NoTwins(handles, pushed) && forall k :: k in pushed ==> k < |handles|
    ensures EveryResultArrives(handles, pushed)
  {
    forall order, res, slots, j | OrderOf(order, pushed) && InBounds(order, |handles|) && |slots| == |res| == |handles| && 0 <= j < |handles|
      ensures Gathered(handles, order, res, slots)[j] == if j in pushed then res[j] else slots[j]
    {
      Confluence(handles, pushed, order, res, slots, j);
    }
  }

  lemma OneIsLost(handles: seq<Handle>, pushed: set<nat>, i: nat, j: nat)
    requires forall k :: k in pushed ==> k < |handles|
    requires i < j < |handles| && j in pushed && handles[i] == handles[j]
    ensures !EveryResultArrives(handles, pushed)
  {
    var order := Enumerate(pushed);
    var slots := seq(|handles|, _ => Slot(0, 0));
    var res := seq(|handles|, _ => Slot(0, 1));
    assert InBounds(order, |handles|) by {
      assert forall k :: 0 <= k < |order| ==> order[k] in order;
    }
    Unreached(handles, order, res, slots, i, j);
    assert Gathered(handles, order, res, slots)[j] != res[j];
  }

  // A repeated handle costs the later slot its result.
  lemma ArrivesIff(handles: seq<Handle>, pushed: set<nat>)
    requires forall k :: k in pushed ==> k < |handles|
    ensures EveryResultArrives(handles, pushed) <==> NoTwins(handles, pushed)
  {
    if NoTwins(handles, pushed) {
      AllArrive(handles, pushed);
    } else {
      var i, j :| 0 <= i < j < |handles| && j in pushed && handles[i] == handles[j];
      OneIsLost(handles, pushed, i, j);
    }
  }

  lemma {:induction false} Unreached(handles: seq<Handle>, order: seq<nat>, res: seq<Slot>, slots: seq<Slot>, i: nat, j: nat)
    requires |slots| == |res| == |handles| && i < j < |handles| && handles[i] == handles[j]
    requires InBounds(order, |handles|)
    ensures Gathered(handles, order, res, slots)[j] == slots[j]
    decreases |order|
  {
    if order != [] {
      var at := First(handles, handles[order[0]]);
      Unreached(handles, order[1..], res, slots[at := res[order[0]]], i, j);
    }
  }

  lemma {:induction false} Enumerate(s: set<nat>) returns (order: seq<nat>)
    ensures OrderOf(order, s)
    decreases |s|
  {
    if s == {} {
      order := [];
    } else {
      var k :| k in s;
      var rest := Enumerate(s - {k});
      order := [k] + rest;
    }
  }
}
