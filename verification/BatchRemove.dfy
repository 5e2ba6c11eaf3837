// Removing a list of objects, one nested machine after the other. As written, the
// nested machine finds no request in its frame, and the first removal faults. With
// the request named there: how far a run gets, what it reports, what it hands back
// to the scheduler, and how much of that is left to chance because the machine
// frees the frame with its own state.

module BatchRemove {

  type Handle = nat
  type ErrorCode = x: int | x < 0 witness -1

  datatype Option<T> = None | Some(value: T)

  const REMOVE_NEXT := 1

  // How the steps for each item end. The prelude may schedule an item and then
  // still fail; without a schedule there is nothing to release.
  datatype Item = Item(scheduled: bool, prelude: Option<ErrorCode>, removal: Option<ErrorCode>, release: Option<ErrorCode>)

  // The error with which an item ends the run, if it does.
  function Fault(x: Item): Option<ErrorCode> {
    if x.prelude.Some? then x.prelude
    else if x.removal.Some? then x.removal
    else if x.scheduled then x.release
    else None
  }

  predicate Removes(x: Item) { x.prelude.None? && x.removal.None? }

  // The first item that ends the run, or the number of items.
  function Stop(items: seq<Item>, k: nat): (r: nat)
    requires k <= |items|
    ensures k <= r <= |items|
    ensures forall i :: k <= i < r ==> Fault(items[i]).None?
    ensures r < |items| ==> Fault(items[r]).Some?
    decreases |items| - k
  {
    if k == |items| || Fault(items[k]).Some? then k else Stop(items, k + 1)
  }

  // How many objects, from the front, are removed.
  function Reach(items: seq<Item>): (r: nat)
    ensures r <= |items|
  {
    var k := Stop(items, 0);
    if k < |items| && Removes(items[k]) then k + 1 else k
  }

  function Status(items: seq<Item>): int {
    var k := Stop(items, 0);
    if k < |items| then Fault(items[k]).value else 0
  }

  // The scheduler's numbers for the first `n` items, as far as scheduled.
  function Ids(items: seq<Item>, n: nat): seq<nat>
    requires n <= |items|
  {
    if n == 0 then [] else Ids(items, n - 1) + (if items[n - 1].scheduled then [n] else [])
  }

  // Items whose prelude was run.
  function Tried(items: seq<Item>): (r: nat)
    ensures r <= |items|
  {
    var k := Stop(items, 0);
    if k < |items| then k + 1 else k
  }

  // An item that does not end the run.
  predicate Fine(x: Item) {
    x.prelude.None? && x.removal.None? && (x.scheduled ==> x.release.None?)
  }

  // The status is 0 exactly when every object was removed and every release
  // succeeded. Otherwise the first item at which something failed decides: it is
  // removed only if its release is what failed, and the code is that of the
  // first of its steps that failed.
  lemma StatusMeaning(items: seq<Item>, k: nat)
    requires k <= |items| && forall i :: 0 <= i < k ==> Fine(items[i])
    ensures k == |items| ==> Status(items) == 0 && Reach(items) == Tried(items) == k
    ensures k < |items| && !Fine(items[k]) ==>
              && Tried(items) == k + 1
              && (items[k].prelude.Some? ==> Status(items) == items[k].prelude.value && Reach(items) == k)
              && (items[k].prelude.None? && items[k].removal.Some? ==>
                    Status(items) == items[k].removal.value && Reach(items) == k)
              && (items[k].prelude.None? && items[k].removal.None? ==>
                    Status(items) == items[k].release.value && Reach(items) == k + 1)
  {
    if k == |items| || !Fine(items[k]) {
      StopAt(items, 0, k);
    }
  }

  lemma {:induction false} StopAt(items: seq<Item>, j: nat, k: nat)
    requires j <= k <= |items| && (forall i :: j <= i < k ==> Fine(items[i])) && (k < |items| ==> !Fine(items[k]))
    ensures Stop(items, j) == k
    decreases k - j
  {
    if j < k {
      StopAt(items, j + 1, k);
    }
  }

  // The numbers are those of the scheduled items, each once, in order.
  lemma {:induction false} IdsExact(items: seq<Item>, n: nat)
    requires n <= |items|
    ensures forall id :: id in Ids(items, n) <==> 1 <= id <= n && items[id - 1].scheduled
    ensures forall i, j :: 0 <= i < j < |Ids(items, n)| ==> Ids(items, n)[i] < Ids(items, n)[j]
  {
    if n > 0 {
      IdsExact(items, n - 1);
      var before := Ids(items, n - 1);
      assert forall i :: 0 <= i < |before| ==> before[i] in before;
    }
  }

  // --------------------------------------------------------------------------
  // A run on values.
  // --------------------------------------------------------------------------

  // What reads of the machine's frame find in one round once it has been freed:
  // anything, or nothing but what was last written there.
  datatype Stale = Stale(
    named: Option<Handle>,     // the handle to prepare, through request and index
    target: Option<Handle>,    // the handle to remove
    scheduled: Option<nat>,    // the number to release
    saved: Option<int>,        // the saved error
    more: Option<bool>)        // whether the index is still below the count

  const UNTOUCHED := Stale(None, None, None, None, None)

  // One request: its handles, how the steps of each round end, and the contents
  // of freed memory in each round and in the final response. The frame of the
  // nested machine is cleared and then given a handle; `linked` says that it is
  // given the request too, which the program as written does not do.
  datatype Input = Input(handles: seq<Handle>, items: seq<Item>, stale: seq<Stale>, last: Option<nat>, linked: bool)

  predicate Valid(x: Input) {
    |x.handles| == |x.items| == |x.stale| >= 1
  }

  datatype State = State(
    index: nat, target: Handle, scheduledId: nat, saved: int,   // the frame, as last written
    frees: nat,                                                 // how often it was freed
    error: int,                                                 // code left by the last action
    removed: seq<Handle>, acquired: seq<nat>, released: seq<nat>,
    faulted: bool)

  const START := State(0, 0, 0, 0, 0, REMOVE_NEXT, [], [], [], false)

  // A read of the frame.
  function Look<T>(s: State, written: T, found: Option<T>): T {
    if s.frees > 0 && found.Some? then found.value else written
  }

  function Code(e: Option<ErrorCode>): int { if e.Some? then e.value else 0 }

  // An index beyond the array reads past its end; here it finds 0.
  function AfterPrelude(x: Input, k: nat, s: State): State
    requires Valid(x) && k < |x.items|
  {
    var named := Look(s, if s.index < |x.handles| then x.handles[s.index] else 0, x.stale[k].named);
    var t := s.(target := named, error := Code(x.items[k].prelude));
    if x.items[k].scheduled then t.(scheduledId := k + 1, acquired := s.acquired + [k + 1]) else t
  }

  // Before the removal is posted the nested machine reads its request, to pass on
  // the hints.
  function AfterNested(x: Input, k: nat, s: State): State
    requires Valid(x) && k < |x.items|
  {
    if x.linked then AfterRemoval(x, k, s) else s.(faulted := true)
  }

  // On return from the nested machine the bottom frame is current again, so it
  // is the machine's own frame that is freed, and the nested one that is popped;
  // the popped frame never carries an error.
  function AfterRemoval(x: Input, k: nat, s: State): State
    requires Valid(x) && k < |x.items|
  {
    var target := Look(s, s.target, x.stale[k].target);
    s.(removed := if x.items[k].removal.Some? then s.removed else s.removed + [target],
       error := Code(x.items[k].removal), frees := s.frees + 1)
  }

  function AfterRelease(x: Input, k: nat, s: State): State
    requires Valid(x) && k < |x.items|
  {
    var id := Look(s, s.scheduledId, x.stale[k].scheduled);
    if id == 0 then s
    else s.(saved := if s.error != 0 then s.error else s.saved, released := s.released + [id], scheduledId := 0,
            error := Code(x.items[k].release))
  }

  function AfterNext(x: Input, k: nat, s: State): State
    requires Valid(x) && k < |x.items|
  {
    var saved := Look(s, s.saved, x.stale[k].saved);
    if saved != 0 then s.(error := saved)
    else if s.error != 0 then s
    else s.(index := s.index + 1, error := if Look(s, s.index + 1 < |x.handles|, x.stale[k].more) then REMOVE_NEXT else 0)
  }

  function Round(x: Input, k: nat, s: State): State
    requires Valid(x) && k < |x.items|
  {
    var p := AfterPrelude(x, k, s);
    var q := if p.error == 0 then AfterNested(x, k, p) else p;
    if q.faulted then q else AfterNext(x, k, AfterRelease(x, k, q))
  }

  // The state in which a run leaves its rounds. One that has used up the given
  // rounds and would go on leaves with REMOVE_NEXT.
  function Rounds(x: Input, k: nat, s: State): State
    requires Valid(x) && k <= |x.items|
    decreases |x.items| - k
  {
    if k == |x.items| || s.faulted || s.error != REMOVE_NEXT then s else Rounds(x, k + 1, Round(x, k, s))
  }

  datatype Outcome = Outcome(answered: bool, removed: seq<Handle>, status: int, acquired: seq<nat>, released: seq<nat>, frees: nat)

  // The final response releases what still seems scheduled; then the frames that
  // are left are freed.
  function Finish(x: Input, s: State): Outcome {
    if s.faulted then Outcome(false, s.removed, s.error, s.acquired, s.released, s.frees)
    else
    var id := Look(s, s.scheduledId, x.last);
    Outcome(s.error != REMOVE_NEXT, s.removed, s.error, s.acquired, if id == 0 then s.released else s.released + [id], s.frees + 1)
  }

  function Result(x: Input): Outcome
    requires Valid(x)
  {
    Finish(x, Rounds(x, 0, START))
  }

  // --------------------------------------------------------------------------
  // What is promised of a run, and when it holds.
  // --------------------------------------------------------------------------

  // The objects removed are a prefix of the request, the first error is the one
  // reported, and every scheduled item is released exactly once.
  predicate Kept(x: Input, r: Outcome)
    requires Valid(x)
  {
    && r.answered && r.removed == x.handles[..Reach(x.items)] && r.status == Status(x.items)
    && r.acquired == r.released == Ids(x.items, Tried(x.items))
  }

  // The removals among the first `n` items, successful or not.
  function Attempts(items: seq<Item>, n: nat): nat
    requires n <= |items|
  {
    if n == 0 then 0 else Attempts(items, n - 1) + (if items[n - 1].prelude.None? then 1 else 0)
  }

  predicate IsUntouched(x: Input) {
    x.last == None && forall k :: 0 <= k < |x.stale| ==> x.stale[k] == UNTOUCHED
  }

  // The state before round `k` while freed memory keeps its contents.
  predicate Before(x: Input, k: nat, s: State)
    requires Valid(x) && k <= |x.items|
  {
    && Stop(x.items, 0) == Stop(x.items, k) && s.index == k && s.scheduledId == 0 && s.saved == 0
    && !s.faulted && s.removed == x.handles[..k] && s.acquired == s.released == Ids(x.items, k) && s.frees == Attempts(x.items, k)
  }

  predicate After(x: Input, s: State)
    requires Valid(x)
  {
    && !s.faulted && s.error == Status(x.items) && s.scheduledId == 0 && s.removed == x.handles[..Reach(x.items)]
    && s.acquired == s.released == Ids(x.items, Tried(x.items)) && s.frees == Attempts(x.items, Tried(x.items))
  }

  lemma GoodRound(x: Input, k: nat, s: State)
    requires Valid(x) && x.linked && k < |x.items| && x.stale[k] == UNTOUCHED && Before(x, k, s) && Fault(x.items[k]).None?
    ensures var t := Round(x, k, s);
            if t.error == REMOVE_NEXT then k + 1 < |x.items| && Before(x, k + 1, t) else After(x, t)
  {
    assert x.handles[..k + 1] == x.handles[..k] + [x.handles[k]];
    assert Stop(x.items, k) == Stop(x.items, k + 1);
  }

  lemma FaultyRound(x: Input, k: nat, s: State)
    requires Valid(x) && x.linked && k < |x.items| && x.stale[k] == UNTOUCHED && Before(x, k, s) && Fault(x.items[k]).Some?
    ensures After(x, Round(x, k, s))
  {
    assert x.handles[..k + 1] == x.handles[..k] + [x.handles[k]];
    assert Stop(x.items, k) == k;
  }

  lemma RoundUntouched(x: Input, k: nat, s: State)
    requires Valid(x) && x.linked && k < |x.items| && x.stale[k] == UNTOUCHED && Before(x, k, s)
    ensures var t := Round(x, k, s);
            if t.error == REMOVE_NEXT then k + 1 < |x.items| && Before(x, k + 1, t) else After(x, t)
  {
    if Fault(x.items[k]).None? {
      GoodRound(x, k, s);
    } else {
      FaultyRound(x, k, s);
    }
  }

  lemma {:induction false} RoundsUntouched(x: Input, k: nat, s: State)
    requires Valid(x) && x.linked && k < |x.items| && IsUntouched(x) && Before(x, k, s) && s.error == REMOVE_NEXT
    ensures After(x, Rounds(x, k, s))
    decreases |x.items| - k
  {
    RoundUntouched(x, k, s);
    var t := Round(x, k, s);
    if t.error == REMOVE_NEXT {
      RoundsUntouched(x, k + 1, t);
    }
  }

  // With the request named, and as long as freed memory keeps its contents, the
  // promises hold, although the frame is freed once for every removal tried and
  // once more at the end.
  lemma KeptUntouched(x: Input)
    requires Valid(x) && x.linked && IsUntouched(x)
    ensures Kept(x, Result(x)) && Result(x).frees == 1 + Attempts(x.items, Tried(x.items))
  {
    RoundsUntouched(x, 0, START);
  }

  // A first item whose prelude fails ends the run before anything is freed.
  lemma PreludeFails(x: Input)
    requires Valid(x) && x.items[0].prelude.Some?
    ensures Kept(x, Result(x)) && Result(x).frees == 1
  {
    assert Stop(x.items, 0) == 0;
    assert Ids(x.items, 1) == Ids(x.items, 0) + (if x.items[0].scheduled then [1] else []);
    assert Rounds(x, 1, Round(x, 0, START)) == Round(x, 0, START);
    assert x.handles[..0] == [];
  }

  // As written: a request is answered, and then keeps its promises, exactly when
  // the first prelude fails. Otherwise nothing is removed, and an item that was
  // scheduled stays so.
  lemma AsWritten(x: Input)
    requires Valid(x) && !x.linked
    ensures Result(x).answered <==> x.items[0].prelude.Some?
    ensures Result(x).answered ==> Kept(x, Result(x)) && Result(x).frees == 1
    ensures !Result(x).answered ==> Result(x) == Outcome(false, [], 0, if x.items[0].scheduled then [1] else [], [], 0)
  {
    if x.items[0].prelude.Some? {
      PreludeFails(x);
    } else {
      assert Rounds(x, 1, Round(x, 0, START)) == Round(x, 0, START);
    }
  }

  // With the request named the first round frees the frame, and the end of the
  // run frees it again.
  lemma {:induction false} FreesGrow(x: Input, k: nat, s: State)
    requires Valid(x) && k <= |x.items|
    ensures Rounds(x, k, s).frees >= s.frees
    decreases |x.items| - k
  {
    if k < |x.items| && !s.faulted && s.error == REMOVE_NEXT {
      FreesGrow(x, k + 1, Round(x, k, s));
    }
  }

  lemma FreedOnceIff(x: Input)
    requires Valid(x)
    ensures Result(x).frees == 1 <==> x.items[0].prelude.Some?
  {
    if x.items[0].prelude.Some? {
      PreludeFails(x);
    } else {
      FreesGrow(x, 1, Round(x, 0, START));
      if !x.linked {
        AsWritten(x);
      } else if |x.items| == 1 {
      } else {
        FaultsNever(x, 1, Round(x, 0, START));
      }
    }
  }

  lemma {:induction false} FaultsNever(x: Input, k: nat, s: State)
    requires Valid(x) && x.linked && k <= |x.items| && !s.faulted
    ensures !Rounds(x, k, s).faulted
    decreases |x.items| - k
  {
    if k < |x.items| && s.error == REMOVE_NEXT {
      FaultsNever(x, k + 1, Round(x, k, s));
    }
  }

  // Freed memory with which the first round reports another error.
  function Disturbing(items: seq<Item>): seq<Stale>
    requires items != []
  {
    [UNTOUCHED.(saved := Some(if Status(items) == -1 then -2 else -1))] + seq(|items| - 1, _ => UNTOUCHED)
  }

  lemma Disturbed(handles: seq<Handle>, items: seq<Item>, linked: bool)
    requires |handles| == |items| >= 1 && items[0].prelude.None?
    ensures var x := Input(handles, items, Disturbing(items), None, linked); !Kept(x, Result(x))
  {
    var x := Input(handles, items, Disturbing(items), None, linked);
    assert Rounds(x, 1, Round(x, 0, START)) == Round(x, 0, START);
  }

  // With or without the request named, the promises hold whatever freed memory
  // contains exactly when the first prelude fails.
  lemma KeptIff(handles: seq<Handle>, items: seq<Item>, linked: bool)
    requires |handles| == |items| >= 1
    ensures (forall stale, last :: |stale| == |items| ==>
               Kept(Input(handles, items, stale, last, linked), Result(Input(handles, items, stale, last, linked))))
            <==> items[0].prelude.Some?
  {
    if items[0].prelude.Some? {
      forall stale, last | |stale| == |items|
        ensures Kept(Input(handles, items, stale, last, linked), Result(Input(handles, items, stale, last, linked)))
      {
        PreludeFails(Input(handles, items, stale, last, linked));
      }
    } else {
      Disturbed(handles, items, linked);
      assert |Disturbing(items)| == |items|;
    }
  }

  const FINE := Item(true, None, None, None)

  // The nested machine's frame is as large as the one that was freed. With the
  // request named, and when it is given the same block and cleared, the second
  // removal is of handle 0.
  lemma SecondTargetCleared(a: Handle, b: Handle)
    ensures var x := Input([a, b], [FINE, FINE], [UNTOUCHED, UNTOUCHED.(target := Some(0))], None, true);
            Result(x) == Outcome(true, [a, 0], 0, [1, 2], [1, 2], 3)
  {
    var x := Input([a, b], [FINE, FINE], [UNTOUCHED, UNTOUCHED.(target := Some(0))], None, true);
    var s := Round(x, 0, START);
    assert s == State(1, a, 0, 0, 1, REMOVE_NEXT, [a], [1], [1], false);
    var t := Round(x, 1, s);
    assert t == State(2, b, 0, 0, 2, 0, [a, 0], [1, 2], [1, 2], false);
    assert Rounds(x, 1, s) == Rounds(x, 2, t) == t;
  }

  // --------------------------------------------------------------------------
  // The machine.
  // --------------------------------------------------------------------------

  datatype Frame = ServerOp | RemoveOp

  class Machine {
    const x: Input
    var handleIndex: nat          // the machine's own frame
    var target: Handle
    var scheduledId: nat
    var savedError: int
    var error: int
    var removed: seq<Handle>
    var acquired: seq<nat>
    var released: seq<nat>
    var frames: seq<Frame>        // bottom first; the machine's own frame is the bottom one
    var freed: seq<Frame>
    var faulted: bool

    ghost predicate Ready(k: nat)
      reads this
    {
      Valid(x) && k < |x.items| && frames == [ServerOp] && forall f :: f in freed ==> f == ServerOp
    }

    function Now(): State
      reads this
    {
      State(handleIndex, target, scheduledId, savedError, |freed|, error, removed, acquired, released, faulted)
    }

    constructor (x: Input)
      requires Valid(x)
      ensures this.x == x && Now() == START && Ready(0)
    {
      this.x := x;
      handleIndex, target, scheduledId, savedError, error := 0, 0, 0, 0, REMOVE_NEXT;
      removed, acquired, released, frames, freed, faulted := [], [], [], [ServerOp], [], false;
    }

    method RunPrelude(k: nat)
      requires Ready(k)
      modifies this
      ensures Ready(k) && Now() == AfterPrelude(x, k, old(Now()))
    {
      target := if ServerOp in freed && x.stale[k].named.Some? then x.stale[k].named.value
                else if handleIndex < |x.handles| then x.handles[handleIndex] else 0;
      if x.items[k].scheduled {
        scheduledId := k + 1;
        acquired := acquired + [k + 1];
      }
      error := Code(x.items[k].prelude);
      assert ServerOp in freed <==> freed != [] by { if freed != [] { assert freed[0] in freed; } }
    }

    method RunRemoval(k: nat)
      requires Ready(k)
      modifies this
      ensures (x.linked ==> Ready(k)) && Now() == AfterNested(x, k, old(Now()))
    {
      assert ServerOp in freed <==> freed != [] by { if freed != [] { assert freed[0] in freed; } }
      var handle := if ServerOp in freed && x.stale[k].target.Some? then x.stale[k].target.value else target;
      frames := frames + [RemoveOp];
      if !x.linked {
        faulted := true;
        return;
      }
      if x.items[k].removal.None? {
        removed := removed + [handle];
      }
      error := Code(x.items[k].removal);
      var current := frames[0];
      frames := frames[..|frames| - 1];
      freed := freed + [current];
    }

    method ReleaseItem(k: nat)
      requires Ready(k)
      modifies this
      ensures Ready(k) && Now() == AfterRelease(x, k, old(Now()))
    {
      assert ServerOp in freed <==> freed != [] by { if freed != [] { assert freed[0] in freed; } }
      var id := if ServerOp in freed && x.stale[k].scheduled.Some? then x.stale[k].scheduled.value else scheduledId;
      if id == 0 {
        return;
      }
      if error != 0 {
        savedError := error;
      }
      released := released + [id];
      scheduledId := 0;
      error := Code(x.items[k].release);
    }

    method RemoveNext(k: nat)
      requires Ready(k)
      modifies this
      ensures Ready(k) && Now() == AfterNext(x, k, old(Now()))
    {
      assert ServerOp in freed <==> freed != [] by { if freed != [] { assert freed[0] in freed; } }
      var saved := if ServerOp in freed && x.stale[k].saved.Some? then x.stale[k].saved.value else savedError;
      if saved != 0 {
        error := saved;
        return;
      }
      if error != 0 {
        return;
      }
      handleIndex := handleIndex + 1;
      var more := if ServerOp in freed && x.stale[k].more.Some? then x.stale[k].more.value else handleIndex < |x.handles|;
      if more {
        error := REMOVE_NEXT;
      }
    }

    method DoItem(k: nat)
      requires Ready(k) && !faulted
      modifies this
      ensures (!faulted ==> Ready(k)) && Now() == Round(x, k, old(Now()))
    {
      RunPrelude(k);
      if error == 0 {
        RunRemoval(k);
        if faulted {
          return;
        }
      }
      ReleaseItem(k);
      RemoveNext(k);
    }

    method Run()
      requires Ready(0) && Now() == START
      modifies this
      ensures Now() == Rounds(x, 0, START)
    {
      var k := 0;
      while k < |x.items| && !faulted && error == REMOVE_NEXT
        invariant 0 <= k <= |x.items| && (k < |x.items| && !faulted ==> Ready(k))
        invariant Rounds(x, k, Now()) == Rounds(x, 0, START)
      {
        DoItem(k);
        k := k + 1;
      }
    }
  }

  // The whole request, for every content of freed memory.
  method RemoveAll(x: Input) returns (r: Outcome)
    requires Valid(x)
    ensures r == Result(x)
  {
    var m := new Machine(x);
    m.Run();
    if m.faulted {
      return Outcome(false, m.removed, m.error, m.acquired, m.released, |m.freed|);
    }
    var id := if m.freed != [] && x.last.Some? then x.last.value else m.scheduledId;
    r := Outcome(m.error != REMOVE_NEXT, m.removed, m.error, m.acquired,
                 if id == 0 then m.released else m.released + [id], |m.freed| + 1);
  }
}
