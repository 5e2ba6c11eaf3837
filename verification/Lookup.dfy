// Path lookup: a loop over segments with two counters, a cursor into the path
// and two ways of checking permission, proved against a recursive walk.

module Lookup {
  import P = Path

  type Handle = nat
  type ErrorCode = x: int | x < 0 witness -1

  const ENOENT: ErrorCode := -2
  const STATE_ENOTDIR := 22
  const STATE_NOMORESEGS := 23
  const SEGMENT_LIMIT := 40

  // Datafiles and dirdata objects are of another kind; the machine asserts that
  // it meets none.
  datatype Kind = Directory | Metafile | Symlink | Other
  datatype Attr = Attr(kind: Kind, owner: int, group: int, perms: int, atime: int, mtime: int, ctime: int, stuffedSize: int)
  datatype Read<T> = Value(v: T) | Failed(code: ErrorCode)
  datatype Option<T> = None | Some(value: T)

  // What reads return. Every read is also indexed by the depth at which it is
  // made, so any pattern of failures is covered, even on one object met twice.
  datatype Namespace = Namespace(
    attr: (nat, Handle) -> Read<Attr>,
    mode: (nat, Handle) -> bool,               // the mode bits allow traversal
    acl: (nat, Handle) -> Option<ErrorCode>,   // why the access list does not
    queued: (nat, Handle) -> bool,             // the access list is not read at once
    dirdata: (nat, Handle) -> Read<Handle>,
    entry: (nat, Handle, string) -> Read<Handle>
  )

  // --------------------------------------------------------------------------
  // The walk.
  // --------------------------------------------------------------------------

  datatype Step = Next(child: Handle) | Stop(code: int)

  predicate MayTraverse(ns: Namespace, k: nat, h: Handle) {
    ns.mode(k, h) || ns.acl(k, h).None?
  }

  // One segment, looked up in the object `h` reached at depth `k`.
  function Link(ns: Namespace, k: nat, h: Handle, name: string): Step {
    if ns.attr(k, h).Failed? then Stop(ns.attr(k, h).code)
    else if ns.attr(k, h).v.kind != Directory then Stop(STATE_ENOTDIR)
    else if !MayTraverse(ns, k, h) then Stop(ns.acl(k, h).value)
    else if ns.dirdata(k, h).Failed? then Stop(ns.dirdata(k, h).code)
    else
      var found := ns.entry(k, ns.dirdata(k, h).v, name);
      if found.Failed? then Stop(found.code) else Next(found.v)
  }

  // The job that reads an access list is posted with the wrong object to resume.
  // Read at once, it makes no difference; queued, nothing resumes the lookup.
  predicate Strands(ns: Namespace, k: nat, h: Handle) {
    && ns.attr(k, h).Value? && ns.attr(k, h).v.kind == Directory
    && !ns.mode(k, h) && ns.queued(k, h)
  }

  // The walk comes to such a directory with segments left to look up.
  predicate Stranded(ns: Namespace, k: nat, h: Handle, segs: seq<string>)
    decreases |segs|
  {
    segs != [] && (Strands(ns, k, h) ||
      match Link(ns, k, h, segs[0])
      case Stop(_) => false
      case Next(c) => Stranded(ns, k + 1, c, segs[1..]))
  }

  // The handles of the segments that resolve, one after the other.
  function Chain(ns: Namespace, k: nat, h: Handle, segs: seq<string>): (r: seq<Handle>)
    ensures |r| <= |segs|
    decreases |segs|
  {
    if segs == [] then []
    else
      match Link(ns, k, h, segs[0])
      case Stop(_) => []
      case Next(c) => [c] + Chain(ns, k + 1, c, segs[1..])
  }

  // The last object whose attributes are asked for.
  function Last(h: Handle, chain: seq<Handle>): Handle {
    if chain == [] then h else chain[|chain| - 1]
  }

  // The code with which the walk ends.
  function Ending(ns: Namespace, k: nat, h: Handle, segs: seq<string>): int
    decreases |segs|
  {
    if segs == [] then
      if ns.attr(k, h).Failed? then ns.attr(k, h).code
      else if ns.attr(k, h).v.kind != Directory then STATE_ENOTDIR
      else STATE_NOMORESEGS
    else
      match Link(ns, k, h, segs[0])
      case Stop(code) => code
      case Next(c) => Ending(ns, k + 1, c, segs[1..])
  }

  predicate LastReadable(ns: Namespace, base: Handle, segs: seq<string>) {
    var chain := Chain(ns, 0, base, segs);
    ns.attr(|chain|, Last(base, chain)).Value?
  }

  // The walk comes to an object of another kind, which is then the last one.
  predicate MeetsOther(ns: Namespace, base: Handle, segs: seq<string>) {
    var chain := Chain(ns, 0, base, segs);
    var got := ns.attr(|chain|, Last(base, chain));
    got.Value? && got.v.kind == Other
  }

  // A name looked up in `p` gives `c`, as the namespace has it: `p` is a
  // directory that may be traversed, and its entries have the name.
  predicate Resolves(ns: Namespace, k: nat, p: Handle, name: string, c: Handle) {
    && ns.attr(k, p).Value? && ns.attr(k, p).v.kind == Directory
    && (ns.mode(k, p) || ns.acl(k, p).None?)
    && ns.dirdata(k, p).Value? && ns.entry(k, ns.dirdata(k, p).v, name) == Value(c)
  }

  // Handles that resolve a prefix of the path, each in the one before it.
  predicate Leads(ns: Namespace, k: nat, h: Handle, segs: seq<string>, hs: seq<Handle>) {
    |hs| <= |segs| && forall i :: 0 <= i < |hs| ==> ResolvesAt(ns, k, h, segs, hs, i)
  }

  predicate ResolvesAt(ns: Namespace, k: nat, h: Handle, segs: seq<string>, hs: seq<Handle>, i: nat)
    requires i < |hs| <= |segs|
  {
    Resolves(ns, k + i, if i == 0 then h else hs[i - 1], segs[i], hs[i])
  }

  lemma LeadsStep(ns: Namespace, k: nat, h: Handle, segs: seq<string>, hs: seq<Handle>)
    requires segs != [] && hs != []
    ensures Leads(ns, k, h, segs, hs) <==>
            Resolves(ns, k, h, segs[0], hs[0]) && Leads(ns, k + 1, hs[0], segs[1..], hs[1..])
  {
    if |hs| <= |segs| {
      var next, rest := k + 1, hs[1..];
      forall j | 0 <= j < |rest|
        ensures ResolvesAt(ns, next, hs[0], segs[1..], rest, j) == ResolvesAt(ns, k, h, segs, hs, j + 1)
      {
      }
      if Resolves(ns, k, h, segs[0], hs[0]) && Leads(ns, next, hs[0], segs[1..], rest) {
        forall i | 0 <= i < |hs| ensures ResolvesAt(ns, k, h, segs, hs, i) {
          assert i > 0 ==> ResolvesAt(ns, next, hs[0], segs[1..], rest, i - 1);
        }
      }
      if Leads(ns, k, h, segs, hs) {
        assert ResolvesAt(ns, k, h, segs, hs, 0);
      }
    }
  }

  // The walk leads along the path, and whatever does is a prefix of it.
  lemma {:induction false} ChainIsLongest(ns: Namespace, k: nat, h: Handle, segs: seq<string>, hs: seq<Handle>)
    ensures Leads(ns, k, h, segs, hs) <==> hs <= Chain(ns, k, h, segs)
    decreases |segs|
  {
    var chain := Chain(ns, k, h, segs);
    if hs == [] {
    } else if segs == [] {
    } else if Link(ns, k, h, segs[0]).Stop? {
      LeadsStep(ns, k, h, segs, hs);
    } else {
      var c := Link(ns, k, h, segs[0]).child;
      LeadsStep(ns, k, h, segs, hs);
      ChainIsLongest(ns, k + 1, c, segs[1..], hs[1..]);
      assert chain[1..] == Chain(ns, k + 1, c, segs[1..]);
      if hs <= chain {
        assert hs[0] == chain[0] && hs[1..] <= chain[1..];
      }
      if hs[0] == c && hs[1..] <= chain[1..] {
        assert hs == [hs[0]] + hs[1..] && chain == [chain[0]] + chain[1..];
      }
    }
  }

  // Every object on the way but the last was read and is a directory.
  lemma {:induction false} ChainReadable(ns: Namespace, k: nat, h: Handle, segs: seq<string>, i: nat)
    requires i < |Chain(ns, k, h, segs)|
    ensures var got := ns.attr(k + i, if i == 0 then h else Chain(ns, k, h, segs)[i - 1]);
            got.Value? && got.v.kind == Directory
    decreases |segs|
  {
    if i > 0 {
      ChainReadable(ns, k + 1, Link(ns, k, h, segs[0]).child, segs[1..], i - 1);
    }
  }

  const WORD := 0x1_0000_0000

  function Unsigned(x: int): (r: int)
    ensures 0 <= x < WORD ==> r == x
    ensures x == -1 ==> r == WORD - 1
  {
    x % WORD
  }

  // The 32-bit attribute count and the status of the response.
  function AttrCount(ns: Namespace, base: Handle, segs: seq<string>): int {
    var n := |Chain(ns, 0, base, segs)|;
    if LastReadable(ns, base, segs) then n else if n > 0 then n - 1 else WORD - 1
  }

  function Status(ns: Namespace, base: Handle, segs: seq<string>): int {
    if Chain(ns, 0, base, segs) != [] || !LastReadable(ns, base, segs) then 0
    else if Ending(ns, 0, base, segs) < 0 then Ending(ns, 0, base, segs)
    else ENOENT
  }

  // The counts and the status mean what they should exactly when the attributes
  // of the base can be read. Otherwise the lookup succeeds without a handle and
  // with an attribute count that has wrapped around.
  lemma ResponseSoundIff(ns: Namespace, base: Handle, segs: seq<string>)
    requires |segs| < WORD - 1
    ensures var n := |Chain(ns, 0, base, segs)|;
            ((Status(ns, base, segs) == 0 <==> n >= 1) && AttrCount(ns, base, segs) in {n, n - 1})
            <==> ns.attr(0, base).Value?
    ensures ns.attr(0, base).Failed? ==> Status(ns, base, segs) == 0 && AttrCount(ns, base, segs) == WORD - 1
  {
    if Chain(ns, 0, base, segs) != [] {
      ChainReadable(ns, 0, base, segs, 0);
    }
  }

  // `walked` is the beginning of the walk, and the rest of the walk follows it.
  predicate Walked(ns: Namespace, base: Handle, segs: seq<string>, walked: seq<Handle>) {
    var k, h := |walked|, Last(base, walked);
    && k <= |segs|
    && Chain(ns, 0, base, segs) == walked + Chain(ns, k, h, segs[k..])
    && Ending(ns, 0, base, segs) == Ending(ns, k, h, segs[k..])
    && Stranded(ns, 0, base, segs) == Stranded(ns, k, h, segs[k..])
  }

  // The object that the first `j` handles of a chain lead to.
  predicate StrandsAfter(ns: Namespace, k: nat, h: Handle, chain: seq<Handle>, j: nat)
    requires j <= |chain|
  {
    Strands(ns, k + j, Last(h, chain[..j]))
  }

  lemma StrandsLater(ns: Namespace, k: nat, h: Handle, c: Handle, rest: seq<Handle>, j: nat)
    requires j <= |rest|
    ensures StrandsAfter(ns, k + 1, c, rest, j) == StrandsAfter(ns, k, h, [c] + rest, j + 1)
  {
    assert ([c] + rest)[..j + 1] == [c] + rest[..j];
  }

  // A walk is stranded exactly when one of the objects it comes to, the base or
  // one that an earlier segment resolves to, strands it.
  lemma {:induction false} StrandedIff(ns: Namespace, k: nat, h: Handle, segs: seq<string>, chain: seq<Handle>)
    requires chain == Chain(ns, k, h, segs)
    ensures Stranded(ns, k, h, segs) <==> exists j :: 0 <= j <= |chain| && j < |segs| && StrandsAfter(ns, k, h, chain, j)
    decreases |segs|
  {
    if segs == [] {
    } else if Strands(ns, k, h) {
      assert StrandsAfter(ns, k, h, chain, 0);
    } else if Link(ns, k, h, segs[0]).Stop? {
    } else {
      var c := Link(ns, k, h, segs[0]).child;
      var next, rest := k + 1, Chain(ns, k + 1, c, segs[1..]);
      StrandedIff(ns, next, c, segs[1..], rest);
      if j :| 0 <= j <= |rest| && j < |segs[1..]| && StrandsAfter(ns, next, c, rest, j) {
        StrandsLater(ns, k, h, c, rest, j);
      }
      if j :| 0 <= j <= |chain| && j < |segs| && StrandsAfter(ns, k, h, chain, j) {
        StrandsLater(ns, k, h, c, rest, j - 1);
      }
    }
  }

  lemma EndsHere(ns: Namespace, base: Handle, segs: seq<string>, walked: seq<Handle>, code: int)
    requires Walked(ns, base, segs, walked)
    requires var k, h := |walked|, Last(base, walked);
             if k < |segs| then Link(ns, k, h, segs[k]) == Stop(code) && !Strands(ns, k, h) else Ending(ns, k, h, []) == code
    ensures Chain(ns, 0, base, segs) == walked && Ending(ns, 0, base, segs) == code && !Stranded(ns, 0, base, segs)
  {
    var k, h := |walked|, Last(base, walked);
    assert k < |segs| ==> segs[k..][0] == segs[k];
    assert Chain(ns, k, h, segs[k..]) == [];
    assert walked + [] == walked;
  }

  // An object that cannot be read, or is no directory, ends the walk whether or
  // not segments remain.
  lemma ObjectEnds(ns: Namespace, base: Handle, segs: seq<string>, walked: seq<Handle>)
    requires Walked(ns, base, segs, walked)
    ensures var got := ns.attr(|walked|, Last(base, walked));
            && (got.Failed? || got.v.kind != Directory || |walked| == |segs| ==> !Stranded(ns, 0, base, segs))
            && (got.Failed? ==> Chain(ns, 0, base, segs) == walked && Ending(ns, 0, base, segs) == got.code)
            && (got.Value? && got.v.kind != Directory ==>
                  Chain(ns, 0, base, segs) == walked && Ending(ns, 0, base, segs) == STATE_ENOTDIR)
            && (got.Value? && got.v.kind == Directory && |walked| == |segs| ==>
                  Chain(ns, 0, base, segs) == walked && Ending(ns, 0, base, segs) == STATE_NOMORESEGS)
  {
    var got := ns.attr(|walked|, Last(base, walked));
    if got.Failed? {
      EndsHere(ns, base, segs, walked, got.code);
    } else if got.v.kind != Directory {
      EndsHere(ns, base, segs, walked, STATE_ENOTDIR);
    } else if |walked| == |segs| {
      EndsHere(ns, base, segs, walked, STATE_NOMORESEGS);
    }
  }

  lemma StrandedHere(ns: Namespace, base: Handle, segs: seq<string>, walked: seq<Handle>)
    requires Walked(ns, base, segs, walked) && |walked| < |segs| && Strands(ns, |walked|, Last(base, walked))
    ensures Stranded(ns, 0, base, segs)
  {
    assert segs[|walked|..] != [];
  }

  lemma GoesOn(ns: Namespace, base: Handle, segs: seq<string>, walked: seq<Handle>, child: Handle)
    requires Walked(ns, base, segs, walked) && |walked| < |segs|
    requires Link(ns, |walked|, Last(base, walked), segs[|walked|]) == Next(child)
    requires !Strands(ns, |walked|, Last(base, walked))
    ensures Walked(ns, base, segs, walked + [child])
  {
    var k, h := |walked|, Last(base, walked);
    assert segs[k..][0] == segs[k] && segs[k..][1..] == segs[k + 1..];
    var rest := Chain(ns, k + 1, child, segs[k + 1..]);
    assert walked + ([child] + rest) == walked + [child] + rest;
  }

  // --------------------------------------------------------------------------
  // The machine.
  // --------------------------------------------------------------------------

  datatype Outcome =
    | Hangs    // suspended without a job that resumes it
    | Faults   // stopped by an assertion, or by encoding more than there is
    | Reply(status: int, handleCount: int, attrCount: int, handles: seq<Handle>, attrs: seq<Attr>)

  // The handles of the longest chain, the attributes that could be read for
  // them, and the counts and status that go with them.
  predicate IsReply(ns: Namespace, base: Handle, segs: seq<string>, r: Outcome) {
    var chain := Chain(ns, 0, base, segs);
    && r.Reply? && r.handles == chain && r.handleCount == |chain|
    && r.status == Status(ns, base, segs) && r.attrCount == AttrCount(ns, base, segs)
    && |r.attrs| == r.attrCount <= |chain|
    && forall i :: 0 <= i < |r.attrs| ==> ns.attr(i + 1, chain[i]) == Value(r.attrs[i])
  }

  datatype State = ReadMetadata | Verify | CheckAcls | ReadDirHandle | ReadEntry | SetupResp | Done | Suspended | Stopped

  class Machine {
    const ns: Namespace
    const base: Handle
    const cursor: P.Cursor
    const segCt: nat
    const handles: array<Handle>
    const attrs: array<Attr>
    var segNr: nat
    var handleCt: nat
    var attrCt: nat
    var dirent: Handle
    var error: int              // the code the last action left
    var state: State
    var handleCount: int        // 32-bit fields of the response
    var attrCount: int

    ghost function Segs(): seq<string> { P.Segments(cursor.path, 0) }

    // The object the machine stands on.
    function Current(): Handle
      requires segNr <= handles.Length
      reads this`segNr, handles
    {
      if segNr == 0 then base else handles[segNr - 1]
    }

    ghost predicate Shape()
      reads this`segNr, cursor, cursor.buf
    {
      && cursor.Valid() && 1 <= segCt == |Segs()| <= SEGMENT_LIMIT && handles.Length == attrs.Length == segCt && segNr <= segCt
    }

    // What has been walked, and what is still to walk, make up the whole walk.
    ghost predicate OnTrack()
      reads this`segNr, this`attrCt, handles, attrs
      requires segNr <= handles.Length == attrs.Length
    {
      && Walked(ns, base, Segs(), handles[..segNr]) && Current() == Last(base, handles[..segNr])
      && (forall i :: 0 <= i < segNr && i + 1 < attrCt ==> ns.attr(i + 1, handles[i]) == Value(attrs[i]))
    }

    ghost predicate AtDirectory()
      reads this`segNr, this`handleCt, this`attrCt, handles
      requires segNr <= handles.Length
    {
      && handleCt == attrCt == segNr + 1 && segNr < segCt
      && ns.attr(segNr, Current()).Value? && ns.attr(segNr, Current()).v.kind == Directory
    }

    ghost predicate MayEnter()
      reads this`segNr, handles
      requires segNr <= handles.Length
    {
      MayTraverse(ns, segNr, Current()) && !Strands(ns, segNr, Current())
    }

    ghost predicate Finished()
      reads this`handleCt, this`attrCt, this`error, handles, attrs
      requires handles.Length == attrs.Length
    {
      var chain := Chain(ns, 0, base, Segs());
      && handleCt == |chain| + 1 && |chain| <= handles.Length && handles[..|chain|] == chain
      && attrCt == (if LastReadable(ns, base, Segs()) then |chain| + 1 else |chain|)
      && (forall i :: 0 <= i < |chain| && i + 1 < attrCt ==> ns.attr(i + 1, chain[i]) == Value(attrs[i]))
      && error == Ending(ns, 0, base, Segs()) && !MeetsOther(ns, base, Segs())
    }

    ghost predicate Inv()
      reads this, handles, attrs, cursor, cursor.buf
    {
      && Shape()
      && match state {
           case ReadMetadata => OnTrack() && handleCt == attrCt == segNr && cursor.Remaining() == Segs()[segNr..]
           case Verify =>
             && OnTrack() && handleCt == segNr + 1 && attrCt == segNr && cursor.Remaining() == Segs()[segNr..]
             && ns.attr(segNr, Current()).Value?
           case CheckAcls =>
             OnTrack() && AtDirectory() && cursor.Remaining() == Segs()[segNr..] && !ns.mode(segNr, Current())
           case ReadDirHandle =>
             && OnTrack() && AtDirectory() && MayEnter()
             && cursor.Remaining() == Segs()[segNr + 1..] && cursor.Shows(Segs()[segNr])
           case ReadEntry =>
             && OnTrack() && AtDirectory() && MayEnter()
             && cursor.Remaining() == Segs()[segNr + 1..] && cursor.Shows(Segs()[segNr])
             && ns.dirdata(segNr, Current()) == Value(dirent)
           case SetupResp => Finished() && !Stranded(ns, 0, base, Segs())
           case Done => true
           case Suspended => Stranded(ns, 0, base, Segs())
           case Stopped => MeetsOther(ns, base, Segs()) && !Stranded(ns, 0, base, Segs())
         }
    }

    constructor (ns: Namespace, base: Handle, cursor: P.Cursor, segCt: nat)
      requires cursor.Valid() && cursor.segment == -1 && 1 <= segCt == |P.Segments(cursor.path, 0)| <= SEGMENT_LIMIT
      ensures Inv() && state == ReadMetadata
      ensures this.ns == ns && this.base == base && this.cursor == cursor && fresh(handles) && fresh(attrs)
    {
      this.ns, this.base, this.cursor, this.segCt := ns, base, cursor, segCt;
      handles := new Handle[segCt](_ => 0);
      attrs := new Attr[segCt](_ => Attr(Directory, 0, 0, 0, 0, 0, 0, 0));
      segNr, handleCt, attrCt, dirent, error, state := 0, 0, 0, 0, 0, ReadMetadata;
      handleCount, attrCount := 0, 0;
    }

    // Leaves the loop after `k` segments, with the code that ended it.
    method Halt(code: int, ghost k: nat)
      requires Shape() && k <= segNr && handleCt == k + 1
      requires Chain(ns, 0, base, Segs()) == handles[..k] && Ending(ns, 0, base, Segs()) == code
      requires !Stranded(ns, 0, base, Segs())
      requires attrCt == if ns.attr(k, Last(base, handles[..k])).Value? then k + 1 else k
      requires ns.attr(k, Last(base, handles[..k])).Value? ==> ns.attr(k, Last(base, handles[..k])).v.kind != Other
      requires forall i :: 0 <= i < k && i + 1 < attrCt ==> ns.attr(i + 1, handles[i]) == Value(attrs[i])
      modifies this`error, this`state
      ensures Inv() && state == SetupResp && error == code
    {
      error := code;
      state := SetupResp;
    }

    method ReadObjectMetadata()
      requires Inv() && state == ReadMetadata
      modifies this`handleCt, this`error, this`state
      ensures Inv() && segNr == old(segNr)
      ensures state == if ns.attr(segNr, Current()).Value? then Verify else SetupResp
    {
      handleCt := handleCt + 1;
      var got := ns.attr(segNr, Current());
      if got.Failed? {
        ObjectEnds(ns, base, Segs(), handles[..segNr]);
        Halt(got.code, segNr);
      } else {
        error := 0;
        state := Verify;
      }
    }

    // The attributes of every object but the base go into the response.
    method RecordAttributes()
      requires Inv() && state == Verify
      modifies this`attrCt, attrs
      ensures Shape() && OnTrack() && handleCt == attrCt == segNr + 1
    {
      if segNr > 0 {
        attrs[segNr - 1] := ns.attr(segNr, Current()).v;
      }
      attrCt := attrCt + 1;
    }

    method VerifyObjectMetadata()
      requires Inv() && state == Verify
      modifies this`attrCt, this`error, this`state, attrs, cursor, cursor.buf
      ensures Inv() && segNr == old(segNr)
      ensures state in {CheckAcls, ReadDirHandle, SetupResp, Stopped}
      ensures state == Stopped <==> ns.attr(segNr, Current()).v.kind == Other
    {
      RecordAttributes();
      if ns.attr(segNr, Current()).v.kind == Other {
        StopHere();
      } else {
        ChooseWay(ns.attr(segNr, Current()).v);
      }
    }

    // The assertion on the object's type fails.
    method StopHere()
      requires Shape() && OnTrack() && ns.attr(segNr, Current()).Value? && ns.attr(segNr, Current()).v.kind == Other
      modifies this`state
      ensures Inv() && state == Stopped
    {
      ObjectEnds(ns, base, Segs(), handles[..segNr]);
      state := Stopped;
    }

    // Files and links end the walk, and so does the last segment; a directory
    // is entered once one of the two permission checks allows it.
    method ChooseWay(a: Attr)
      requires Shape() && OnTrack() && handleCt == attrCt == segNr + 1
      requires ns.attr(segNr, Current()) == Value(a) && a.kind != Other && cursor.Remaining() == Segs()[segNr..]
      modifies this`state, this`error, cursor, cursor.buf
      ensures Inv() && state in {CheckAcls, ReadDirHandle, SetupResp}
    {
      if a.kind == Metafile || a.kind == Symlink {
        HaltHere(STATE_ENOTDIR);
      } else if segNr == segCt {
        HaltHere(STATE_NOMORESEGS);
      } else if !ns.mode(segNr, Current()) {
        AskAccessList();
      } else {
        EnterDirectory();
      }
    }

    method HaltHere(code: int)
      requires Shape() && OnTrack() && handleCt == attrCt == segNr + 1
      requires ns.attr(segNr, Current()).Value? && ns.attr(segNr, Current()).v.kind != Other
      requires ns.attr(segNr, Current()).v.kind != Directory || segNr == segCt
      requires code == if ns.attr(segNr, Current()).v.kind != Directory then STATE_ENOTDIR else STATE_NOMORESEGS
      modifies this`state, this`error
      ensures Inv() && state == SetupResp
    {
      ObjectEnds(ns, base, Segs(), handles[..segNr]);
      Halt(code, segNr);
    }

    method AskAccessList()
      requires Shape() && OnTrack() && AtDirectory() && cursor.Remaining() == Segs()[segNr..] && !ns.mode(segNr, Current())
      modifies this`state
      ensures Inv() && state == CheckAcls
    {
      ghost var rest := cursor.Remaining();
      state := CheckAcls;
      assert Shape() && OnTrack() && AtDirectory();
      assert cursor.Remaining() == rest;
    }

    // Takes the next segment off the path.
    method EnterDirectory()
      requires Shape() && OnTrack() && AtDirectory() && MayEnter()
      requires cursor.Remaining() == Segs()[segNr..]
      modifies this`state, this`error, cursor, cursor.buf
      ensures Inv() && state == ReadDirHandle
    {
      assert Segs()[segNr..][0] == Segs()[segNr] && Segs()[segNr..][1..] == Segs()[segNr + 1..];
      var found := cursor.NextSegment();
      error := 0;
      state := ReadDirHandle;
    }

    method CheckAccessList()
      requires Inv() && state == CheckAcls
      modifies this`error, this`state, cursor, cursor.buf
      ensures Inv() && segNr == old(segNr)
      ensures state in {ReadDirHandle, SetupResp, Suspended}
      ensures state == Suspended <==> ns.queued(segNr, Current())
    {
      if ns.queued(segNr, Current()) {
        StrandedHere(ns, base, Segs(), handles[..segNr]);
        state := Suspended;
        return;
      }
      var denied := ns.acl(segNr, Current());
      if denied.Some? {
        EndsHere(ns, base, Segs(), handles[..segNr], denied.value);
        Halt(denied.value, segNr);
      } else {
        EnterDirectory();
      }
    }

    method ReadDirectoryEntryHandle()
      requires Inv() && state == ReadDirHandle
      modifies this`error, this`dirent, this`state
      ensures Inv() && segNr == old(segNr)
      ensures var got := ns.dirdata(segNr, Current());
              if got.Value? then state == ReadEntry && dirent == got.v else state == SetupResp && error == got.code
    {
      var got := ns.dirdata(segNr, Current());
      if got.Failed? {
        EndsHere(ns, base, Segs(), handles[..segNr], got.code);
        Halt(got.code, segNr);
      } else {
        OpenDirectory(got.v);
      }
    }

    method OpenDirectory(d: Handle)
      requires Inv() && state == ReadDirHandle && ns.dirdata(segNr, Current()) == Value(d)
      modifies this`error, this`dirent, this`state
      ensures Inv() && state == ReadEntry && dirent == d
    {
      ghost var rest := cursor.Remaining();
      error := 0;
      dirent := d;
      state := ReadEntry;
      assert cursor.Remaining() == rest;
    }

    // The counter moves on before the entry is read; if the read fails it
    // stands one too high, which the response does not depend on.
    method ReadDirectoryEntry()
      requires Inv() && state == ReadEntry
      modifies this`segNr, this`error, this`state, handles
      ensures Inv() && segNr == old(segNr) + 1
      ensures var got := ns.entry(old(segNr), old(dirent), Segs()[old(segNr)]);
              if got.Value? then state == ReadMetadata && handles[old(segNr)] == got.v
              else state == SetupResp && error == got.code
    {
      var name := cursor.Name(Segs()[segNr]);
      var got := ns.entry(segNr, dirent, name);
      var slot := segNr;
      ghost var walked := handles[..slot];
      segNr := segNr + 1;
      if got.Failed? {
        EndsHere(ns, base, Segs(), walked, got.code);
        Halt(got.code, slot);
      } else {
        GoesOn(ns, base, Segs(), walked, got.v);
        Descend(slot, got.v);
      }
    }

    method Descend(slot: nat, child: Handle)
      requires Shape() && segNr == slot + 1 && handleCt == attrCt == segNr
      requires Walked(ns, base, Segs(), handles[..slot] + [child]) && cursor.Remaining() == Segs()[segNr..]
      requires forall i :: 0 <= i < slot ==> ns.attr(i + 1, handles[i]) == Value(attrs[i])
      modifies this`error, this`state, handles
      ensures Inv() && state == ReadMetadata && handles[slot] == child
    {
      ghost var walked := handles[..slot];
      error := 0;
      handles[slot] := child;
      assert handles[..segNr] == walked + [child];
      state := ReadMetadata;
    }

    // The counts in the response are one less than the machine's, in 32 bits.
    method SetUpResponse()
      requires Inv() && state == SetupResp
      modifies this`handleCount, this`attrCount, this`error, this`state
      ensures Shape() && state == Done && Answered() && !Stranded(ns, 0, base, Segs()) && !MeetsOther(ns, base, Segs())
    {
      handleCount := Unsigned(handleCt - 1);
      attrCount := Unsigned(attrCt - 1);
      if handleCount != 0 || attrCount != 0 {
        error := 0;
      } else if error < 0 {
      } else {
        error := ENOENT;
      }
      state := Done;
    }

    // What the response says about the walk.
    ghost predicate Answered()
      reads this`handleCount, this`attrCount, this`error, handles, attrs
      requires handles.Length == attrs.Length
    {
      var chain := Chain(ns, 0, base, Segs());
      && handleCount == |chain| <= handles.Length && handles[..|chain|] == chain
      && attrCount == AttrCount(ns, base, Segs())
      && (forall i :: 0 <= i < |chain| && i < attrCount ==> ns.attr(i + 1, chain[i]) == Value(attrs[i]))
      && error == Status(ns, base, Segs())
    }

    function Rank(): nat
      reads this
    {
      match state
      case Done => 0 case Suspended => 0 case Stopped => 0 case SetupResp => 1 case ReadEntry => 2 case ReadDirHandle => 3
      case CheckAcls => 4 case Verify => 5 case ReadMetadata => 6
    }

    // Every run ends, is suspended or is stopped; the segments left to look up bound it.
    method Run()
      requires Inv() && state == ReadMetadata
      modifies this, handles, attrs, cursor, cursor.buf
      ensures Shape()
      ensures if Stranded(ns, 0, base, Segs()) then state == Suspended
              else if MeetsOther(ns, base, Segs()) then state == Stopped
              else state == Done && Answered()
    {
      while state != Done && state != Suspended && state != Stopped
        invariant Inv()
        invariant state == Done ==> Answered() && !Stranded(ns, 0, base, Segs()) && !MeetsOther(ns, base, Segs())
        decreases segCt - segNr, Rank()
      {
        match state
        case ReadMetadata => ReadObjectMetadata();
        case Verify => VerifyObjectMetadata();
        case CheckAcls => CheckAccessList();
        case ReadDirHandle => ReadDirectoryEntryHandle();
        case ReadEntry => ReadDirectoryEntry();
        case SetupResp => SetUpResponse();
      }
    }

    // Encoding the response walks as many attributes as it says there are.
    method MakeReply() returns (r: Outcome)
      requires Shape() && Answered()
      ensures if ns.attr(0, base).Value? then IsReply(ns, base, Segs(), r) else r == Faults
    {
      ResponseSoundIff(ns, base, Segs());
      if attrCount > attrs.Length {
        return Faults;
      }
      r := Reply(error, handleCount, attrCount, handles[..handleCount], attrs[..attrCount]);
    }
  }

  // --------------------------------------------------------------------------
  // A whole request.
  // --------------------------------------------------------------------------

  // What a reply says of the walk, read off the namespace: every handle is the
  // entry of its segment in the directory before it,
  lemma ReplyHandle(ns: Namespace, base: Handle, segs: seq<string>, r: Outcome, i: nat)
    requires IsReply(ns, base, segs, r) && i < r.handleCount
    ensures r.handleCount == |r.handles| <= |segs| && ResolvesAt(ns, 0, base, segs, r.handles, i)
  {
    ChainIsLongest(ns, 0, base, segs, r.handles);
  }

  // and the next segment, if there is one, has no entry.
  lemma ReplyEnds(ns: Namespace, base: Handle, segs: seq<string>, r: Outcome)
    requires IsReply(ns, base, segs, r) && r.handleCount < |segs|
    ensures forall c :: !Resolves(ns, r.handleCount, Last(base, r.handles), segs[r.handleCount], c)
  {
    var hs, n := r.handles, |r.handles|;
    forall c ensures !Resolves(ns, n, Last(base, hs), segs[n], c) {
      if Resolves(ns, n, Last(base, hs), segs[n], c) {
        var more := hs + [c];
        ChainIsLongest(ns, 0, base, segs, hs);
        forall i | 0 <= i < |more| ensures ResolvesAt(ns, 0, base, segs, more, i) {
          assert i < n ==> ResolvesAt(ns, 0, base, segs, hs, i);
        }
        ChainIsLongest(ns, 0, base, segs, more);
        assert false;
      }
    }
  }

  lemma StrandedExactly(ns: Namespace, base: Handle, segs: seq<string>)
    ensures Stranded(ns, 0, base, segs) <==>
            exists hs :: Leads(ns, 0, base, segs, hs) && |hs| < |segs|
                         && ns.attr(|hs|, Last(base, hs)).Value? && ns.attr(|hs|, Last(base, hs)).v.kind == Directory
                         && !ns.mode(|hs|, Last(base, hs)) && ns.queued(|hs|, Last(base, hs))
  {
    var chain := Chain(ns, 0, base, segs);
    StrandedIff(ns, 0, base, segs, chain);
    if j :| 0 <= j <= |chain| && j < |segs| && StrandsAfter(ns, 0, base, chain, j) {
      ChainIsLongest(ns, 0, base, segs, chain[..j]);
    }
    if hs :| Leads(ns, 0, base, segs, hs) && |hs| < |segs| && Strands(ns, |hs|, Last(base, hs)) {
      ChainIsLongest(ns, 0, base, segs, hs);
      assert chain[..|hs|] == hs;
      assert StrandsAfter(ns, 0, base, chain, |hs|);
    }
  }

  lemma MeetsOtherExactly(ns: Namespace, base: Handle, segs: seq<string>)
    ensures MeetsOther(ns, base, segs) <==>
            exists hs :: Leads(ns, 0, base, segs, hs) && ns.attr(|hs|, Last(base, hs)).Value?
                         && ns.attr(|hs|, Last(base, hs)).v.kind == Other
  {
    var chain := Chain(ns, 0, base, segs);
    ChainIsLongest(ns, 0, base, segs, chain);
    if hs :| Leads(ns, 0, base, segs, hs) && ns.attr(|hs|, Last(base, hs)).Value?
             && ns.attr(|hs|, Last(base, hs)).v.kind == Other {
      ChainIsLongest(ns, 0, base, segs, hs);
      if |hs| < |chain| {
        ChainReadable(ns, 0, base, segs, |hs|);
        assert false;
      }
      assert hs == chain;
    }
  }

  // A reply against the namespace alone, without the walk.

  // Every handle is the entry of its segment in a directory that may be
  // traversed: the base, or the handle before it.
  predicate HandlesAsRead(ns: Namespace, base: Handle, segs: seq<string>, handles: seq<Handle>) {
    && |handles| <= |segs|
    && forall i :: 0 <= i < |handles| ==>
         var p := if i == 0 then base else handles[i - 1];
         && ns.attr(i, p).Value? && ns.attr(i, p).v.kind == Directory
         && (ns.mode(i, p) || ns.acl(i, p).None?)
         && ns.dirdata(i, p).Value? && ns.entry(i, ns.dirdata(i, p).v, segs[i]) == Value(handles[i])
  }

  // The first segment without a handle is one that cannot be looked up.
  predicate EndsAsRead(ns: Namespace, base: Handle, segs: seq<string>, handles: seq<Handle>) {
    var i, p := |handles|, if handles == [] then base else handles[|handles| - 1];
    i < |segs| ==>
      || ns.attr(i, p).Failed? || ns.attr(i, p).v.kind != Directory
      || (!ns.mode(i, p) && ns.acl(i, p).Some?)
      || ns.dirdata(i, p).Failed? || ns.entry(i, ns.dirdata(i, p).v, segs[i]).Failed?
  }

  // With no handle at all the status is the code of the read that failed, and
  // a base that is no directory counts as a missing name.
  predicate StatusAsRead(ns: Namespace, base: Handle, name: string, r: Outcome)
    requires r.Reply?
  {
    if r.handleCount != 0 then r.status == 0
    else
      && ns.attr(0, base).Value?
      && if ns.attr(0, base).v.kind != Directory then r.status == ENOENT
         else if !ns.mode(0, base) && ns.acl(0, base).Some? then r.status == ns.acl(0, base).value
         else if ns.dirdata(0, base).Failed? then r.status == ns.dirdata(0, base).code
         else var e := ns.entry(0, ns.dirdata(0, base).v, name); e.Failed? && r.status == e.code
  }

  // The attributes are those of the handles, all but perhaps of the last one,
  // which is left out exactly when it could not be read.
  predicate AttrsAsRead(ns: Namespace, r: Outcome)
    requires r.Reply?
  {
    && r.attrCount == |r.attrs| <= |r.handles|
    && (forall i :: 0 <= i < |r.attrs| ==> ns.attr(i + 1, r.handles[i]) == Value(r.attrs[i]))
    && (|r.attrs| < |r.handles| ==>
          |r.attrs| == |r.handles| - 1 && ns.attr(|r.handles|, r.handles[|r.handles| - 1]).Failed?)
  }

  lemma ReplyHandles(ns: Namespace, base: Handle, segs: seq<string>, r: Outcome)
    requires IsReply(ns, base, segs, r)
    ensures HandlesAsRead(ns, base, segs, r.handles) && EndsAsRead(ns, base, segs, r.handles)
  {
    forall i | 0 <= i < |r.handles|
      ensures Resolves(ns, i, if i == 0 then base else r.handles[i - 1], segs[i], r.handles[i])
    {
      ReplyHandle(ns, base, segs, r, i);
      assert ResolvesAt(ns, 0, base, segs, r.handles, i);
    }
    if r.handleCount < |segs| {
      ReplyEnds(ns, base, segs, r);
      var k, p := |r.handles|, Last(base, r.handles);
      if ns.attr(k, p).Value? && ns.dirdata(k, p).Value? && ns.entry(k, ns.dirdata(k, p).v, segs[k]).Value? {
        assert !Resolves(ns, k, p, segs[k], ns.entry(k, ns.dirdata(k, p).v, segs[k]).v);
      }
    }
  }

  lemma ReplyStatus(ns: Namespace, base: Handle, segs: seq<string>, r: Outcome)
    requires IsReply(ns, base, segs, r) && segs != [] && ns.attr(0, base).Value?
    ensures StatusAsRead(ns, base, segs[0], r) && AttrsAsRead(ns, r)
  {
  }

  method Walk(ns: Namespace, base: Handle, path: string) returns (r: Outcome)
    requires P.Lacks(path, P.NUL) && P.Segments(path, 0) != []
    ensures var segs := P.Segments(path, 0);
            && (r.Hangs? <==> |segs| > SEGMENT_LIMIT || Stranded(ns, 0, base, segs))
            && (r.Reply? <==> |segs| <= SEGMENT_LIMIT && !Stranded(ns, 0, base, segs)
                              && ns.attr(0, base).Value? && !MeetsOther(ns, base, segs))
    ensures r.Reply? ==> IsReply(ns, base, P.Segments(path, 0), r)
  {
    var cursor := new P.Cursor(path);
    var segCt := P.CountSegments(cursor);
    if segCt > SEGMENT_LIMIT {
      return Hangs;
    }
    var m := new Machine(ns, base, cursor, segCt);
    m.Run();
    if m.state == Suspended {
      return Hangs;
    }
    if m.state == Stopped {
      return Faults;
    }
    r := m.MakeReply();
  }

  // A path without segments makes the machine store into arrays of length zero.
  // A lookup is never answered if the path is too long or the walk comes to a
  // directory whose access list is read late. It fails if the base cannot be
  // read or the walk comes to an object of another kind.
  method LookupPath(ns: Namespace, base: Handle, path: string) returns (r: Outcome)
    requires P.Lacks(path, P.NUL) && P.Segments(path, 0) != []
    ensures var segs := P.Segments(path, 0);
            r.Hangs? <==>
              || |segs| > SEGMENT_LIMIT
              || exists hs :: Leads(ns, 0, base, segs, hs) && |hs| < |segs|
                              && ns.attr(|hs|, Last(base, hs)).Value? && ns.attr(|hs|, Last(base, hs)).v.kind == Directory
                              && !ns.mode(|hs|, Last(base, hs)) && ns.queued(|hs|, Last(base, hs))
    ensures var segs := P.Segments(path, 0);
            r.Faults? <==>
              && !r.Hangs?
              && (|| ns.attr(0, base).Failed?
                  || exists hs :: Leads(ns, 0, base, segs, hs) && ns.attr(|hs|, Last(base, hs)).Value?
                                  && ns.attr(|hs|, Last(base, hs)).v.kind == Other)
    ensures r.Reply? ==>
              var segs := P.Segments(path, 0);
              && IsReply(ns, base, segs, r) && r.handleCount == |r.handles|
              && HandlesAsRead(ns, base, segs, r.handles) && EndsAsRead(ns, base, segs, r.handles)
              && StatusAsRead(ns, base, segs[0], r) && AttrsAsRead(ns, r)
  {
    ghost var segs := P.Segments(path, 0);
    StrandedExactly(ns, base, segs);
    MeetsOtherExactly(ns, base, segs);
    r := Walk(ns, base, path);
    if r.Reply? {
      ReplyHandles(ns, base, segs, r);
      ReplyStatus(ns, base, segs, r);
    }
  }
}
