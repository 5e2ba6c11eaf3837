// Which datafile goes where: the server list of a new file is split into local
// and remote servers, and the handles of both are scattered back into stripe
// order.

module Placement {

  type Handle = nat
  type Server = string

  // How many of the first `i` servers are, or are not, this host.
  function Rank(servers: seq<Server>, host: Server, mine: bool, i: nat): (r: nat)
    requires i <= |servers|
    ensures r <= i
  {
    if i == 0 then 0
    else Rank(servers, host, mine, i - 1) + (if (servers[i - 1] == host) == mine then 1 else 0)
  }

  function Count(servers: seq<Server>, host: Server, mine: bool): nat {
    Rank(servers, host, mine, |servers|)
  }

  lemma {:induction false} RankMonotone(servers: seq<Server>, host: Server, mine: bool, i: nat, j: nat)
    requires i <= j <= |servers|
    ensures Rank(servers, host, mine, i) <= Rank(servers, host, mine, j)
    decreases j
  {
    if i < j {
      RankMonotone(servers, host, mine, i, j - 1);
    }
  }

  // A position of its kind has a rank below the count of its kind.
  lemma RankBelowCount(servers: seq<Server>, host: Server, i: nat)
    requires i < |servers|
    ensures Rank(servers, host, servers[i] == host, i) < Count(servers, host, servers[i] == host)
  {
    RankMonotone(servers, host, servers[i] == host, i + 1, |servers|);
  }

  lemma RankInjective(servers: seq<Server>, host: Server, i: nat, j: nat)
    requires i < j < |servers| && (servers[i] == host) == (servers[j] == host)
    ensures Rank(servers, host, servers[i] == host, i) < Rank(servers, host, servers[j] == host, j)
  {
    RankMonotone(servers, host, servers[i] == host, i + 1, j);
  }

  lemma {:induction false} RankOnto(servers: seq<Server>, host: Server, mine: bool, r: nat, n: nat) returns (i: nat)
    requires n <= |servers| && r < Rank(servers, host, mine, n)
    ensures i < n && (servers[i] == host) == mine && Rank(servers, host, mine, i) == r
    decreases n
  {
    if r == Rank(servers, host, mine, n - 1) {
      i := n - 1;
    } else {
      i := RankOnto(servers, host, mine, r, n - 1);
    }
  }

  // --------------------------------------------------------------------------
  // The three loops.
  // --------------------------------------------------------------------------

  // The remote servers, in order.
  function Remote(servers: seq<Server>, host: Server): seq<Server> {
    if servers == [] then []
    else
      var rest := Remote(servers[..|servers| - 1], host);
      if servers[|servers| - 1] == host then rest else rest + [servers[|servers| - 1]]
  }

  // Splits the list: counts both kinds and lists the remote servers.
  method Partition(servers: seq<Server>, host: Server, remote: array<Server>) returns (locals: nat, remotes: nat)
    requires |servers| <= remote.Length
    modifies remote
    ensures locals == Count(servers, host, true) && remotes == Count(servers, host, false) && remotes <= remote.Length
    ensures remote[..remotes] == Remote(servers, host)
  {
    locals, remotes := 0, 0;
    var i := 0;
    while i < |servers|
      invariant 0 <= i <= |servers|
      invariant locals == Rank(servers, host, true, i) && remotes == Rank(servers, host, false, i)
      invariant remotes <= i && remote[..remotes] == Remote(servers[..i], host)
    {
      assert servers[..i + 1][..i] == servers[..i];
      if servers[i] == host {
        locals := locals + 1;
      } else {
        remote[remotes] := servers[i];
        remotes := remotes + 1;
      }
      i := i + 1;
    }
    assert servers[..i] == servers;
  }

  // What position `i` holds after the handles of one kind were put at the
  // positions of that kind; the other positions keep what they held.
  function Slot(servers: seq<Server>, host: Server, mine: bool, handles: seq<Handle>, was: Handle, i: nat): Handle
    requires i < |servers|
  {
    var r := Rank(servers, host, mine, i);
    if (servers[i] == host) == mine && r < |handles| then handles[r] else was
  }

  method Scatter(servers: seq<Server>, host: Server, mine: bool, handles: seq<Handle>, out: array<Handle>)
    requires |servers| <= out.Length && Count(servers, host, mine) <= |handles|
    modifies out
    ensures forall i :: 0 <= i < |servers| ==> out[i] == Slot(servers, host, mine, handles, old(out[i]), i)
  {
    var next := 0;
    var i := 0;
    while i < |servers|
      invariant 0 <= i <= |servers| && next == Rank(servers, host, mine, i)
      invariant forall j :: i <= j < |servers| ==> out[j] == old(out[j])
      invariant forall j :: 0 <= j < i ==> out[j] == Slot(servers, host, mine, handles, old(out[j]), j)
    {
      if (servers[i] == host) == mine {
        RankBelowCount(servers, host, i);
        out[i] := handles[next];
        next := next + 1;
      }
      i := i + 1;
    }
  }

  // --------------------------------------------------------------------------
  // What the two scatters add up to.
  // --------------------------------------------------------------------------

  predicate Distinct(s: seq<Handle>) {
    forall i, j :: 0 <= i < j < |s| ==> s[i] != s[j]
  }

  predicate Disjoint(s: seq<Handle>, t: seq<Handle>) {
    forall i, j :: 0 <= i < |s| && 0 <= j < |t| ==> s[i] != t[j]
  }

  // Every stripe holds a handle of its own server's kind, taken in order.
  predicate Placed(servers: seq<Server>, host: Server, locals: seq<Handle>, remotes: seq<Handle>, out: seq<Handle>) {
    && |locals| == Count(servers, host, true) && |remotes| == Count(servers, host, false) && |out| == |servers|
    && forall i :: 0 <= i < |servers| ==>
         var mine := servers[i] == host;
         var handles := if mine then locals else remotes;
         Rank(servers, host, mine, i) < |handles| && out[i] == handles[Rank(servers, host, mine, i)]
  }

  // A remote handle stands at a stripe of the server it was taken from.
  lemma {:induction false} RemoteAt(servers: seq<Server>, host: Server, i: nat)
    requires i < |servers| && servers[i] != host
    ensures |Remote(servers, host)| == Count(servers, host, false)
    ensures Rank(servers, host, false, i) < Count(servers, host, false)
    ensures Remote(servers, host)[Rank(servers, host, false, i)] == servers[i]
  {
    RemoteLength(servers, host);
    RankBelowCount(servers, host, i);
    RemotePrefix(servers, host, i + 1);
    RemoteLength(servers[..i + 1], host);
    assert servers[..i + 1][..i] == servers[..i];
    RemoteLength(servers[..i], host);
    RankOfPrefix(servers, host, i);
  }

  lemma {:induction false} RankOfPrefix(servers: seq<Server>, host: Server, i: nat)
    requires i <= |servers|
    ensures Rank(servers[..i], host, false, i) == Rank(servers, host, false, i)
  {
    PrefixRank(servers, host, i, i);
  }

  lemma {:induction false} PrefixRank(servers: seq<Server>, host: Server, n: nat, i: nat)
    requires i <= n <= |servers|
    ensures Rank(servers[..n], host, false, i) == Rank(servers, host, false, i)
    decreases i
  {
    if i > 0 {
      PrefixRank(servers, host, n, i - 1);
    }
  }

  lemma {:induction false} RemoteLength(servers: seq<Server>, host: Server)
    ensures |Remote(servers, host)| == Count(servers, host, false)
    decreases |servers|
  {
    if servers != [] {
      RemoteLength(servers[..|servers| - 1], host);
      RankOfPrefix(servers, host, |servers| - 1);
    }
  }

  lemma {:induction false} RemotePrefix(servers: seq<Server>, host: Server, n: nat)
    requires n <= |servers|
    ensures Remote(servers[..n], host) <= Remote(servers, host)
    decreases |servers|
  {
    if n == |servers| {
      assert servers[..n] == servers;
    } else {
      RemotePrefix(servers[..|servers| - 1], host, n);
      assert servers[..|servers| - 1][..n] == servers[..n];
    }
  }

  // The stripes use every handle exactly once: each position has its own
  // handle, and every handle has a position.
  lemma PlacedIsBijection(servers: seq<Server>, host: Server, locals: seq<Handle>, remotes: seq<Handle>, out: seq<Handle>)
    requires Placed(servers, host, locals, remotes, out)
    requires Distinct(locals) && Distinct(remotes) && Disjoint(locals, remotes)
    ensures Distinct(out)
    ensures forall h :: h in out <==> h in locals || h in remotes
  {
    forall i, j | 0 <= i < j < |out| ensures out[i] != out[j] {
      DistinctStripes(servers, host, locals, remotes, out, i, j);
    }
    forall h | h in locals || h in remotes ensures h in out {
      HandleHasStripe(servers, host, locals, remotes, out, h);
    }
    forall h | h in out ensures h in locals || h in remotes {
      var i :| 0 <= i < |out| && out[i] == h;
    }
  }

  lemma DistinctStripes(servers: seq<Server>, host: Server, locals: seq<Handle>, remotes: seq<Handle>, out: seq<Handle>, i: nat, j: nat)
    requires Placed(servers, host, locals, remotes, out) && i < j < |out|
    requires Distinct(locals) && Distinct(remotes) && Disjoint(locals, remotes)
    ensures out[i] != out[j]
  {
    if (servers[i] == host) == (servers[j] == host) {
      RankInjective(servers, host, i, j);
    }
  }

  // The two scatters, one for each kind, place every handle.
  lemma ScattersPlace(servers: seq<Server>, host: Server, locals: seq<Handle>, remotes: seq<Handle>,
                      before: seq<Handle>, between: seq<Handle>, after: seq<Handle>)
    requires |locals| == Count(servers, host, true) && |remotes| == Count(servers, host, false)
    requires |before| == |between| == |after| == |servers|
    requires forall i :: 0 <= i < |servers| ==> between[i] == Slot(servers, host, true, locals, before[i], i)
    requires forall i :: 0 <= i < |servers| ==> after[i] == Slot(servers, host, false, remotes, between[i], i)
    ensures Placed(servers, host, locals, remotes, after)
  {
    forall i | 0 <= i < |servers|
      ensures var mine := servers[i] == host;
              var handles := if mine then locals else remotes;
              Rank(servers, host, mine, i) < |handles| && after[i] == handles[Rank(servers, host, mine, i)]
    {
      RankBelowCount(servers, host, i);
    }
  }

  lemma HandleHasStripe(servers: seq<Server>, host: Server, locals: seq<Handle>, remotes: seq<Handle>, out: seq<Handle>, h: Handle)
    requires Placed(servers, host, locals, remotes, out) && (h in locals || h in remotes)
    ensures h in out
  {
    var mine := h in locals;
    var handles := if mine then locals else remotes;
    var r :| 0 <= r < |handles| && handles[r] == h;
    var i := RankOnto(servers, host, mine, r, |servers|);
    assert out[i] == h;
  }
}
