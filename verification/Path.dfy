// Walking the segments of a path in place: a separator is overwritten by a
// terminator to cut out a segment, and put back when the next one is asked for.

module Path {

  const SLASH: char := '/'
  const NUL: char := '\0'

  predicate Lacks(s: string, c: char) {
    forall i :: 0 <= i < |s| ==> s[i] != c
  }

  // First position from `p` on that does not hold a separator.
  function SkipSlashes(path: string, p: nat): (q: nat)
    requires p <= |path|
    ensures p <= q <= |path|
    ensures q < |path| ==> path[q] != SLASH
    decreases |path| - p
  {
    if p < |path| && path[p] == SLASH then SkipSlashes(path, p + 1) else p
  }

  // First position from `q` on that holds a separator.
  function SegmentEnd(path: string, q: nat): (e: nat)
    requires q <= |path|
    ensures q <= e <= |path|
    ensures e < |path| ==> path[e] == SLASH
    decreases |path| - q
  {
    if q < |path| && path[q] != SLASH then SegmentEnd(path, q + 1) else q
  }

  // The names between separators, from position `p` on.
  function Segments(path: string, p: nat): seq<string>
    requires p <= |path|
    decreases |path| - p
  {
    var q := SkipSlashes(path, p);
    if q == |path| then []
    else
      var e := SegmentEnd(path, q);
      [path[q..e]] + Segments(path, if e < |path| then e + 1 else e)
  }

  function Joined(names: seq<string>): string {
    if names == [] then [] else names[0] + Joined(names[1..])
  }

  // The characters from `p` on that are not separators.
  function WithoutSlashes(path: string, p: nat): string
    requires p <= |path|
    decreases |path| - p
  {
    if p == |path| then []
    else if path[p] == SLASH then WithoutSlashes(path, p + 1)
    else [path[p]] + WithoutSlashes(path, p + 1)
  }

  lemma {:induction false} SkippedAreSlashes(path: string, p: nat)
    requires p <= |path|
    ensures WithoutSlashes(path, p) == WithoutSlashes(path, SkipSlashes(path, p))
    decreases |path| - p
  {
    if p < |path| && path[p] == SLASH {
      SkippedAreSlashes(path, p + 1);
    }
  }

  lemma {:induction false} NoSlashBefore(path: string, q: nat, i: nat)
    requires q <= |path| && q <= i < SegmentEnd(path, q)
    ensures path[i] != SLASH
    decreases i - q
  {
    if q < i {
      NoSlashBefore(path, q + 1, i);
    }
  }

  lemma Prefixed(path: string, q: nat, e: nat, rest: string)
    requires q < e <= |path|
    ensures path[q..e] + rest == [path[q]] + (path[q + 1..e] + rest)
  {
    assert path[q..e] == [path[q]] + path[q + 1..e];
  }

  lemma {:induction false} NameHasNoSlash(path: string, q: nat)
    requires q <= |path|
    ensures var e := SegmentEnd(path, q); WithoutSlashes(path, q) == path[q..e] + WithoutSlashes(path, e)
    decreases |path| - q
  {
    var e := SegmentEnd(path, q);
    if q < |path| && path[q] != SLASH {
      NameHasNoSlash(path, q + 1);
      Prefixed(path, q, e, WithoutSlashes(path, e));
    } else {
      assert path[q..e] == [];
    }
  }

  // The definition, unfolded once.
  lemma SegmentsFrom(path: string, p: nat)
    requires p <= |path|
    ensures var q := SkipSlashes(path, p);
            if q == |path| then Segments(path, p) == []
            else
              var e := SegmentEnd(path, q);
              var names := Segments(path, p);
              && q < e && names != [] && names[0] == path[q..e]
              && names[1..] == Segments(path, if e < |path| then e + 1 else e)
  {
    var q := SkipSlashes(path, p);
    if q < |path| {
      var e := SegmentEnd(path, q);
      var rest := Segments(path, if e < |path| then e + 1 else e);
      assert ([path[q..e]] + rest)[1..] == rest;
    }
  }

  lemma JoinedStep(name: string, rest: seq<string>)
    ensures Joined([name] + rest) == name + Joined(rest)
  {
    assert ([name] + rest)[1..] == rest;
  }

  // The segments are nonempty names without separators, and together they are
  // the path with its separators taken out.
  lemma {:induction false} SegmentsOfPath(path: string, p: nat)
    requires p <= |path|
    ensures forall name :: name in Segments(path, p) ==> name != [] && Lacks(name, SLASH)
    ensures Joined(Segments(path, p)) == WithoutSlashes(path, p)
    decreases |path| - p
  {
    var q := SkipSlashes(path, p);
    SegmentsFrom(path, p);
    SkippedAreSlashes(path, p);
    if q < |path| {
      var e := SegmentEnd(path, q);
      var rest := if e < |path| then e + 1 else e;
      NameHasNoSlash(path, q);
      forall i | q <= i < e ensures path[i] != SLASH {
        NoSlashBefore(path, q, i);
      }
      assert Lacks(path[q..e], SLASH);
      SegmentsOfPath(path, rest);
      JoinedStep(path[q..e], Segments(path, rest));
      assert Segments(path, p) == [path[q..e]] + Segments(path, rest);
      assert WithoutSlashes(path, e) == WithoutSlashes(path, rest);
    }
  }

  // --------------------------------------------------------------------------
  // Which names these are: the maximal runs without a separator, in order.
  // --------------------------------------------------------------------------

  predicate IsStart(path: string, i: nat)
    requires i < |path|
  {
    path[i] != SLASH && (i == 0 || path[i - 1] == SLASH)
  }

  // How many names begin before position `n`.
  function Starts(path: string, n: nat): (r: nat)
    requires n <= |path|
  {
    if n == 0 then 0 else Starts(path, n - 1) + if IsStart(path, n - 1) then 1 else 0
  }

  predicate IsRun(path: string, q: nat, e: nat) {
    && q < e <= |path| && IsStart(path, q)
    && (forall i :: q <= i < e ==> path[i] != SLASH) && (e == |path| || path[e] == SLASH)
  }

  // Segments may be asked for from here on.
  predicate AtBoundary(path: string, p: nat) {
    p <= |path| && (p == 0 || p == |path| || path[p - 1] == SLASH)
  }

  lemma {:induction false} SlashBefore(path: string, p: nat, i: nat)
    requires p <= |path| && p <= i < SkipSlashes(path, p)
    ensures path[i] == SLASH
    decreases i - p
  {
    if p < i {
      SlashBefore(path, p + 1, i);
    }
  }

  lemma {:induction false} NoStarts(path: string, a: nat, b: nat)
    requires a <= b <= |path| && forall i :: a <= i < b ==> !IsStart(path, i)
    ensures Starts(path, b) == Starts(path, a)
  {
    if a < b {
      NoStarts(path, a, b - 1);
    }
  }

  // The first run from a boundary on: where it is, and what is counted there.
  lemma FirstRun(path: string, p: nat)
    requires AtBoundary(path, p)
    ensures var q := SkipSlashes(path, p);
            && Starts(path, q) == Starts(path, p)
            && (forall i :: p <= i < q ==> path[i] == SLASH)
            && (q < |path| ==> IsRun(path, q, SegmentEnd(path, q)))
  {
    var q := SkipSlashes(path, p);
    forall i | p <= i < q ensures path[i] == SLASH {
      SlashBefore(path, p, i);
    }
    NoStarts(path, p, q);
    if q < |path| {
      var e := SegmentEnd(path, q);
      forall i | q <= i < e ensures path[i] != SLASH {
        NoSlashBefore(path, q, i);
      }
    }
  }

  // A run is one start, and the separator after it none.
  lemma PastRun(path: string, q: nat, e: nat)
    requires IsRun(path, q, e)
    ensures var next := if e < |path| then e + 1 else e;
            AtBoundary(path, next) && Starts(path, next) == Starts(path, q) + 1
  {
    assert Starts(path, q + 1) == Starts(path, q) + 1;
    NoStarts(path, q + 1, e);
    if e < |path| {
      NoStarts(path, e, e + 1);
    }
  }

  // The segments from a boundary on: none, or a first run and those after it.
  lemma SegmentsStep(path: string, p: nat) returns (q: nat, e: nat, next: nat)
    requires AtBoundary(path, p)
    ensures p <= q <= |path| && (forall i :: p <= i < q ==> path[i] == SLASH) && Starts(path, q) == Starts(path, p)
    ensures q == |path| ==> Segments(path, p) == []
    ensures q < |path| ==>
              && IsRun(path, q, e) && next == (if e < |path| then e + 1 else e) && AtBoundary(path, next)
              && Starts(path, next) == Starts(path, q) + 1 && Segments(path, p) == [path[q..e]] + Segments(path, next)
  {
    q := SkipSlashes(path, p);
    FirstRun(path, p);
    SegmentsFrom(path, p);
    e, next := q, q;
    if q < |path| {
      e := SegmentEnd(path, q);
      next := if e < |path| then e + 1 else e;
      PastRun(path, q, e);
      assert Segments(path, p) == [Segments(path, p)[0]] + Segments(path, p)[1..];
    }
  }

  lemma {:induction false} SegmentsCounted(path: string, p: nat)
    requires AtBoundary(path, p)
    ensures |Segments(path, p)| == Starts(path, |path|) - Starts(path, p)
    decreases |path| - p
  {
    var q, e, next := SegmentsStep(path, p);
    if q < |path| {
      SegmentsCounted(path, next);
    }
  }

  // Two runs are one and the same, or the later one starts past the separator
  // that ends the other.
  lemma RunsApart(path: string, q: nat, e: nat, r: nat, f: nat)
    requires IsRun(path, q, e) && IsRun(path, r, f) && q <= r
    ensures if q == r then e == f else e < r
  {
  }

  lemma {:induction false} RunIsSegment(path: string, p: nat, q: nat, e: nat)
    requires AtBoundary(path, p) && p <= q && IsRun(path, q, e)
    ensures 0 <= Starts(path, q) - Starts(path, p) < |Segments(path, p)|
    ensures Segments(path, p)[Starts(path, q) - Starts(path, p)] == path[q..e]
    decreases |path| - p
  {
    var q0, e0, next := SegmentsStep(path, p);
    assert q0 <= q;
    RunsApart(path, q0, e0, q, e);
    if q0 < q {
      RunIsSegment(path, next, q, e);
    }
  }

  // The segments of a path are exactly its maximal runs without a separator:
  // there are as many as runs, and the run before which k others begin is
  // segment k.
  lemma SegmentsAreRuns(path: string, q: nat, e: nat)
    ensures |Segments(path, 0)| == Starts(path, |path|)
    ensures IsRun(path, q, e) ==>
              Starts(path, q) < |Segments(path, 0)| && Segments(path, 0)[Starts(path, q)] == path[q..e]
  {
    SegmentsCounted(path, 0);
    if IsRun(path, q, e) {
      RunIsSegment(path, 0, q, e);
    }
  }

  class Cursor {
    const path: string         // the path as the request carries it
    const buf: array<char>     // the same characters, and a terminator
    var segment: int           // where the current segment starts, -1 before the first
    var mark: int              // where a terminator replaces a separator, -1 for none

    ghost predicate Valid()
      reads this, buf
    {
      && buf.Length == |path| + 1 && Lacks(path, NUL)
      && -1 <= mark < |path| && -1 <= segment <= |path|
      && (segment == -1 ==> mark == -1)
      && buf[|path|] == NUL
      && (mark >= 0 ==> path[mark] == SLASH && (buf[mark] == NUL || buf[mark] == SLASH))
      && (forall i :: 0 <= i < |path| && i != mark ==> buf[i] == path[i])
    }

    // The characters are those of the request.
    ghost predicate Whole()
      reads buf
    {
      buf.Length == |path| + 1 && buf[|path|] == NUL && forall i :: 0 <= i < |path| ==> buf[i] == path[i]
    }

    // The position at which the next call starts to look.
    ghost function Next(): (p: nat)
      reads this`segment, this`mark
      ensures p <= |path|
    {
      if segment == -1 then 0 else if 0 <= mark < |path| then mark + 1 else |path|
    }

    ghost function Remaining(): seq<string>
      reads this`segment, this`mark
    {
      Segments(path, Next())
    }

    // The current segment, read up to the terminator.
    ghost predicate Shows(name: string)
      reads this`segment, buf
    {
      && 0 <= segment && segment + |name| < buf.Length
      && (forall i :: 0 <= i < |name| ==> name[i] == buf[segment + i] != NUL) && buf[segment + |name|] == NUL
    }

    constructor (path: string)
      requires Lacks(path, NUL)
      ensures Valid() && fresh(buf) && this.path == path && segment == -1
      ensures Whole()
    {
      this.path := path;
      segment, mark := -1, -1;
      buf := new char[|path| + 1](i => if 0 <= i < |path| then path[i] else NUL);
    }

    // The current segment as its reader sees it, up to the terminator.
    method Name(ghost expected: string) returns (name: string)
      requires Valid() && Shows(expected)
      ensures name == expected
    {
      var e := segment;
      while buf[e] != NUL
        invariant segment <= e <= segment + |expected|
        invariant e - segment < |expected| ==> buf[e] == expected[e - segment] != NUL
        decreases segment + |expected| - e
      {
        e := e + 1;
      }
      name := buf[segment..e];
    }

    // Past the separators at `p`.
    method PastSlashes(p: nat) returns (q: nat, atEnd: bool)
      requires Lacks(path, NUL) && Whole() && p <= |path|
      ensures q == SkipSlashes(path, p) && (atEnd <==> q == |path|)
    {
      q := p;
      while buf[q] != NUL && buf[q] == SLASH
        invariant p <= q <= |path| && SkipSlashes(path, q) == SkipSlashes(path, p)
        decreases |path| - q
      {
        q := q + 1;
      }
      atEnd := buf[q] == NUL;
    }

    // To the separator or terminator that ends the name at `q`.
    method PastName(q: nat) returns (e: nat)
      requires Lacks(path, NUL) && Whole() && q <= |path|
      ensures e == SegmentEnd(path, q)
    {
      e := q;
      while buf[e] != NUL && buf[e] != SLASH
        invariant q <= e <= |path| && SegmentEnd(path, e) == SegmentEnd(path, q)
        decreases |path| - e
      {
        e := e + 1;
      }
    }

    // Puts back the separator, and says where to look for the next name.
    method Resume() returns (more: bool, p: nat)
      requires Valid()
      modifies buf
      ensures Whole() && p == old(Next()) && (!more ==> p == |path|)
    {
      more, p := true, 0;
      if segment >= 0 {
        if mark >= 0 {
          p := mark;
          buf[p] := SLASH;
          p := p + 1;
        } else {
          more, p := false, |path|;
        }
      }
    }

    // Cuts out the name that starts at `q`.
    method Cut(q: nat)
      requires Whole() && Lacks(path, NUL) && q < |path| && path[q] != SLASH
      modifies this, buf
      ensures Valid()
      ensures var e := SegmentEnd(path, q);
              Shows(path[q..e]) && Remaining() == Segments(path, if e < |path| then e + 1 else e)
    {
      segment := q;
      var e := PastName(q);
      if buf[e] == NUL {
        mark := -1;
      } else {
        buf[e] := NUL;
        mark := e;
      }
    }

    // Moves to the next segment. Without one, the path is left as it was given.
    method NextSegment() returns (found: bool)
      requires Valid()
      modifies this, buf
      ensures Valid()
      ensures found == (old(Remaining()) != [])
      ensures found ==> Shows(old(Remaining())[0])
      ensures found ==> Remaining() == old(Remaining())[1..]
      ensures !found ==> Whole()
    {
      ghost var names := Remaining();
      var more, p := Resume();
      SegmentsFrom(path, p);
      assert names == Segments(path, p);
      if !more {
        return false;
      }
      var q, atEnd := PastSlashes(p);
      if atEnd {
        return false;
      }
      Cut(q);
      found := true;
    }
  }

  // Counting takes the path apart and leaves it whole, ready for a first call.
  method CountSegments(c: Cursor) returns (count: nat)
    requires c.Valid() && c.segment == -1
    modifies c, c.buf
    ensures count == |Segments(c.path, 0)|
    ensures c.Whole() && c.Valid() && c.segment == -1
  {
    count := 0;
    var found := c.NextSegment();
    while found
      invariant c.Valid()
      invariant found ==> count + 1 + |c.Remaining()| == |Segments(c.path, 0)|
      invariant !found ==> count == |Segments(c.path, 0)| && c.Whole()
      decreases |Segments(c.path, 0)| - count, found
    {
      count := count + 1;
      found := c.NextSegment();
    }
    c.segment, c.mark := -1, -1;
  }
}
