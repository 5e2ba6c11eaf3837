// The request scheduler's queue for one handle: which requests run together,
// and that none waits in front of an idle handle.

module Scheduler {

  // Creating and removing directory entries is treated apart, and so is I/O.
  datatype Op = Io | Dirent | Other
  datatype Access = ReadOnly | Modify
  datatype State = Queued | Ready | Scheduled

  datatype Element = Element(id: nat, op: Op, access: Access, state: State)

  predicate Admitted(e: Element) { e.state != Queued }

  // Needs the handle to itself when it is let in.
  predicate Exclusive(e: Element) { e.op == Other && e.access == Modify }

  // How `b` may have been let in while `a`, posted before it, was there.
  predicate Beside(a: Element, b: Element) {
    || (a.op == Io && b.op == Io)
    || (a.access == ReadOnly && b.access == ReadOnly)
    || (b.op == Dirent && b.access == ReadOnly)
  }

  predicate Distinct(list: seq<Element>) {
    forall i, j :: 0 <= i < j < |list| ==> list[i].id != list[j].id
  }

  // Requests are let in from the front, and the first one always is.
  predicate Ordered(list: seq<Element>) {
    && (list != [] ==> Admitted(list[0]))
    && forall i, j :: 0 <= i < j < |list| && Admitted(list[j]) ==> Admitted(list[i])
  }

  predicate Compatible(list: seq<Element>) {
    forall i, j :: 0 <= i < j < |list| && Admitted(list[j]) ==> Beside(list[i], list[j])
  }

  predicate Valid(list: seq<Element>) {
    Distinct(list) && Ordered(list) && Compatible(list)
  }

  // A request that needs the handle to itself has been there longest of all that
  // run, so there is at most one; what runs with it are entry operations that
  // joined it.
  lemma ExclusiveIsFirst(list: seq<Element>, k: nat)
    requires Valid(list) && k < |list| && Admitted(list[k]) && Exclusive(list[k])
    ensures k == 0
    ensures forall j :: 0 < j < |list| && Admitted(list[j]) ==> list[j].op == Dirent && list[j].access == ReadOnly
  {
    assert 0 < k ==> Beside(list[0], list[k]);
  }

  // When a new request runs at once.
  predicate RunsAtOnce(list: seq<Element>, op: Op, access: Access) {
    list == [] ||
    (list[0].state == Scheduled && list[|list| - 1].state == Scheduled &&
     if op == Io then forall i :: 0 <= i < |list| ==> list[i].op == Io
     else if access == ReadOnly then forall i :: 0 <= i < |list| ==> list[i].access == ReadOnly
     else op == Dirent)
  }

  // What stands in the queue for it. An entry operation that joins others counts
  // as read-only from then on.
  function Posted(list: seq<Element>, id: nat, op: Op, access: Access): Element {
    if list == [] then Element(id, op, access, Scheduled)
    else if !RunsAtOnce(list, op, access) then Element(id, op, access, Queued)
    else if op == Dirent then Element(id, op, ReadOnly, Scheduled)
    else Element(id, op, access, Scheduled)
  }

  // The requests let in together with the first one: as many as follow it and
  // are I/O too, or read-only too.
  predicate Follows(first: Element, e: Element) {
    if first.op == Io then e.op == Io else first.access == ReadOnly && e.access == ReadOnly
  }

  function GroupEnd(list: seq<Element>, k: nat): (r: nat)
    requires 1 <= k <= |list|
    ensures k <= r <= |list|
    ensures forall i :: k <= i < r ==> Follows(list[0], list[i])
    ensures r < |list| ==> !Follows(list[0], list[r])
    decreases |list| - k
  {
    if k == |list| || !Follows(list[0], list[k]) then k else GroupEnd(list, k + 1)
  }

  function LetIn(list: seq<Element>, n: nat): (r: seq<Element>)
    requires n <= |list|
    ensures |r| == |list|
  {
    seq(|list|, i requires 0 <= i < |list| => if i < n then list[i].(state := Ready) else list[i])
  }

  // The queue once an element has left it.
  function Released(rest: seq<Element>): seq<Element> {
    if rest == [] || Admitted(rest[0]) then rest else LetIn(rest, GroupEnd(rest, 1))
  }

  // Who is let in when nobody runs any more: the first, and with it every I/O
  // request up to one of another sort, or every read-only request up to one
  // that is not. Nothing else changes.
  lemma LetInExactly(rest: seq<Element>, i: nat)
    requires rest != [] && !Admitted(rest[0]) && i < |rest|
    ensures |Released(rest)| == |rest|
    ensures Released(rest)[i] ==
            if || i == 0 || (forall j :: 0 <= j <= i ==> rest[j].op == Io)
               || (rest[0].op != Io && forall j :: 0 <= j <= i ==> rest[j].access == ReadOnly)
            then rest[i].(state := Ready) else rest[i]
  {
    var n := GroupEnd(rest, 1);
    assert 0 < i < n ==> Follows(rest[0], rest[i]);
    if i >= n {
      assert !Follows(rest[0], rest[n]);
    } else if rest[0].op == Io {
      assert forall j :: 0 <= j <= i ==> rest[j].op == Io;
    } else {
      assert i > 0 ==> forall j :: 0 <= j <= i ==> rest[j].access == ReadOnly;
    }
  }

  predicate AllStarted(list: seq<Element>) {
    forall i :: 0 <= i < |list| ==> list[i].state == Scheduled
  }

  // When a request must run at once: on an idle handle; beside I/O if it is
  // I/O; beside readers if it is one; and an entry operation always, unless one
  // that came earlier has not started. A request that waits is never overtaken.
  lemma MustRun(list: seq<Element>, op: Op, access: Access)
    requires Valid(list)
    ensures list == [] ==> RunsAtOnce(list, op, access)
    ensures AllStarted(list) && op == Io ==>
              (RunsAtOnce(list, op, access) <==> forall i :: 0 <= i < |list| ==> list[i].op == Io)
    ensures AllStarted(list) && op != Io && access == ReadOnly ==>
              (RunsAtOnce(list, op, access) <==> forall i :: 0 <= i < |list| ==> list[i].access == ReadOnly)
    ensures AllStarted(list) && op == Dirent && access == Modify ==> RunsAtOnce(list, op, access)
    ensures list != [] && op == Other && access == Modify ==> !RunsAtOnce(list, op, access)
    ensures (exists i :: 0 <= i < |list| && list[i].state == Queued) ==> !RunsAtOnce(list, op, access)
  {
    if i :| 0 <= i < |list| && list[i].state == Queued {
      assert list[|list| - 1].state == Queued;
    }
  }

  lemma PostedKeepsValid(list: seq<Element>, id: nat, op: Op, access: Access)
    requires Valid(list) && forall i :: 0 <= i < |list| ==> list[i].id != id
    ensures Valid(list + [Posted(list, id, op, access)])
  {
  }

  lemma WithoutKeepsOrder(list: seq<Element>, k: nat)
    requires Valid(list) && k < |list|
    ensures var rest := list[..k] + list[k + 1..];
            Distinct(rest) && Compatible(rest) &&
            forall i, j :: 0 <= i < j < |rest| && Admitted(rest[j]) ==> Admitted(rest[i])
  {
    var rest := list[..k] + list[k + 1..];
    assert forall i :: 0 <= i < |rest| ==> rest[i] == list[if i < k then i else i + 1];
  }

  lemma ReleasedKeepsValid(list: seq<Element>, k: nat)
    requires Valid(list) && k < |list|
    ensures Valid(Released(list[..k] + list[k + 1..]))
  {
    WithoutKeepsOrder(list, k);
    var rest := list[..k] + list[k + 1..];
    if rest != [] && !Admitted(rest[0]) {
      LetInValid(rest);
    }
  }

  // With nothing let in, a group from the front can be.
  lemma LetInValid(rest: seq<Element>)
    requires rest != [] && Distinct(rest) && forall i :: 0 <= i < |rest| ==> !Admitted(rest[i])
    ensures Valid(LetIn(rest, GroupEnd(rest, 1)))
  {
  }

  class Queue {
    var list: seq<Element>

    constructor ()
      ensures list == [] && Valid(list)
    {
      list := [];
    }

    // Whether every element is I/O, or read-only.
    method All(io: bool) returns (all: bool)
      ensures all <==> forall i :: 0 <= i < |list| ==> if io then list[i].op == Io else list[i].access == ReadOnly
    {
      var i := 0;
      while i < |list|
        invariant 0 <= i <= |list|
        invariant forall j :: 0 <= j < i ==> if io then list[j].op == Io else list[j].access == ReadOnly
      {
        if !(if io then list[i].op == Io else list[i].access == ReadOnly) {
          return false;
        }
        i := i + 1;
      }
      return true;
    }

    method Post(id: nat, op: Op, access: Access) returns (now: bool)
      requires Valid(list) && forall i :: 0 <= i < |list| ==> list[i].id != id
      modifies this
      ensures Valid(list) && list == old(list) + [Posted(old(list), id, op, access)]
      ensures now <==> RunsAtOnce(old(list), op, access)
      ensures list[..|old(list)|] == old(list)
      ensures list[|old(list)|] ==
              Element(id, op, if now && op == Dirent && old(list) != [] then ReadOnly else access, if now then Scheduled else Queued)
      ensures old(list) == [] ==> now
      ensures AllStarted(old(list)) && op == Io ==> (now <==> forall i :: 0 <= i < |old(list)| ==> old(list)[i].op == Io)
      ensures AllStarted(old(list)) && op != Io && access == ReadOnly ==>
                (now <==> forall i :: 0 <= i < |old(list)| ==> old(list)[i].access == ReadOnly)
      ensures AllStarted(old(list)) && op == Dirent && access == Modify ==> now
      ensures (exists i :: 0 <= i < |old(list)| && old(list)[i].state == Queued) ==> !now
    {
      MustRun(list, op, access);
      PostedKeepsValid(list, id, op, access);
      var e := Element(id, op, access, Queued);
      if list == [] {
        now := true;
      } else if list[0].state == Scheduled && list[|list| - 1].state == Scheduled {
        if op == Io {
          now := All(true);
        } else if access == ReadOnly {
          now := All(false);
        } else {
          now := op == Dirent;
        }
        if now && op == Dirent {
          e := e.(access := ReadOnly);
        }
      } else {
        now := false;
      }
      if now {
        e := e.(state := Scheduled);
      }
      list := list + [e];
    }

    // A request that was let in starts.
    method Start(k: nat)
      requires Valid(list) && k < |list| && list[k].state == Ready
      modifies this
      ensures Valid(list) && list == old(list)[k := old(list)[k].(state := Scheduled)]
    {
      list := list[k := list[k].(state := Scheduled)];
    }

    // A request leaves; if the first one left is waiting, it and those that may
    // run with it are let in, all of which are still waiting.
    method Release(k: nat)
      requires Valid(list) && k < |list|
      modifies this
      ensures Valid(list) && list == Released(old(list)[..k] + old(list)[k + 1..])
    {
      ReleasedKeepsValid(list, k);
      WithoutKeepsOrder(list, k);
      list := list[..k] + list[k + 1..];
      if list == [] || Admitted(list[0]) {
        return;
      }
      ghost var rest := list;
      list := list[0 := list[0].(state := Ready)];
      var n := 1;
      while n < |list| && Follows(list[0], list[n])
        invariant 1 <= n <= |list| == |rest| && list == LetIn(rest, n)
        invariant GroupEnd(rest, n) == GroupEnd(rest, 1)
      {
        assert list[n].state == Queued;
        list := list[n := list[n].(state := Ready)];
        n := n + 1;
      }
    }
  }
}
