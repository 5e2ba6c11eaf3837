// File creation as a transaction: what every run, failed or not, has done with
// each handle it acquired, and which error it reports.

module Create {
  import P = Placement

  type Handle = P.Handle
  type Server = P.Server
  type ErrorCode = x: int | x < 0 witness -1

  datatype Option<T> = None | Some(value: T)

  datatype State =
    | Prelude | CreateMetafile | CheckStuffed | CreateLocal | PreRead | SetLocal | SetupLocal
    | RequestDatafiles | SetDatafileAttrib | WriteKeyvals | SetObjAttribs | SetupResp
    | RemoveKeyvals | ReplaceRemote | RemoveLocal | RemoveMetafile
    | SetupFinal | FinalResponse | Cleanup | Terminated

  const REPLACE_DONE := 100

  // The request, the configuration and the handles the stores will hand out.
  datatype Plan = Plan(
    stuffed: bool, host: Server, servers: seq<Server>,
    meta: Handle, locals: seq<Handle>, remotes: seq<Handle>)

  function SetOf(s: seq<Handle>): set<Handle> { set h | h in s }

  // Fresh handles are distinct. A file that is not stuffed has at least one
  // local datafile; with none the machine reads an array it never filled.
  predicate ValidPlan(p: Plan) {
    && P.Distinct(p.locals) && P.Distinct(p.remotes) && P.Disjoint(p.locals, p.remotes)
    && p.meta !in p.locals && p.meta !in p.remotes
    && (if p.stuffed then |p.locals| == 1 && p.remotes == []
        else |p.locals| == P.Count(p.servers, p.host, true) >= 1 && |p.remotes| == P.Count(p.servers, p.host, false))
  }

  // How each job ends. Returning a handle takes two: finding the pool of its
  // server, and filling it.
  datatype Jobs = Jobs(state: State -> Option<ErrorCode>, lookup: nat -> Option<ErrorCode>, fill: nat -> Option<ErrorCode>)

  // --------------------------------------------------------------------------
  // The reference: what a run does, read off the states that fail.
  // --------------------------------------------------------------------------

  // What has been acquired when a state is reached.
  function Acquired(p: Plan, at: State): set<Handle> {
    match at
    case Prelude => {}
    case CreateMetafile => {}
    case CheckStuffed => {p.meta}
    case CreateLocal => {p.meta}
    case PreRead => {p.meta} + SetOf(p.locals)
    case SetLocal => {p.meta} + SetOf(p.locals)
    case SetupLocal => {p.meta} + SetOf(p.locals)
    case RequestDatafiles => {p.meta} + SetOf(p.locals)
    case _ => {p.meta} + SetOf(p.locals) + SetOf(p.remotes)
  }

  predicate IsForward(s: State) {
    match s
    case RemoveKeyvals => false case ReplaceRemote => false case RemoveLocal => false case RemoveMetafile => false
    case SetupFinal => false case FinalResponse => false case Cleanup => false case Terminated => false
    case _ => true
  }

  // The order in which the forward states are reached.
  const STATES := 10

  function Order(s: State): (r: nat)
    ensures r <= STATES
  {
    match s
    case Prelude => 0 case CreateMetafile => 1 case CheckStuffed => 2 case CreateLocal => 3 case PreRead => 4
    case SetLocal => 5 case SetupLocal => 6 case RequestDatafiles => 6 case SetDatafileAttrib => 7
    case WriteKeyvals => 8 case SetObjAttribs => 9 case _ => STATES
  }

  // The attribute message to the remote datafiles is sent by a nested machine
  // that ends without error whatever became of it.
  predicate IsFallible(s: State) {
    Order(s) < STATES && s != SetupLocal && s != SetDatafileAttrib
  }

  // Without remote datafiles no pool is asked, so that state cannot fail.
  predicate Fails(p: Plan, jobs: Jobs, s: State) {
    jobs.state(s).Some? && !(s == RequestDatafiles && p.remotes == [])
  }

  predicate PassedBefore(p: Plan, jobs: Jobs, k: nat) {
    forall s: State :: IsFallible(s) && Order(s) < k ==> !Fails(p, jobs, s)
  }

  // The run succeeds, or fails first in `at`.
  predicate Succeeds(p: Plan, jobs: Jobs) {
    PassedBefore(p, jobs, STATES)
  }

  predicate FailsAt(p: Plan, jobs: Jobs, at: State) {
    IsFallible(at) && Fails(p, jobs, at) && PassedBefore(p, jobs, Order(at))
  }

  // Exactly one of these holds, for exactly one state.
  lemma SucceedsOrFails(p: Plan, jobs: Jobs)
    ensures Succeeds(p, jobs) <==> !exists at :: FailsAt(p, jobs, at)
    ensures forall s, t :: FailsAt(p, jobs, s) && FailsAt(p, jobs, t) ==> s == t
  {
    if !Succeeds(p, jobs) {
      var s: State :| IsFallible(s) && Fails(p, jobs, s);
      var at := Earliest(p, jobs, s);
    }
    forall s, t | FailsAt(p, jobs, s) && FailsAt(p, jobs, t) ensures s == t {
      SameOrder(s, t);
    }
  }

  lemma SameOrder(s: State, t: State)
    requires IsFallible(s) && IsFallible(t)
    ensures Order(s) == Order(t) ==> s == t
  {
  }

  lemma {:induction false} Earliest(p: Plan, jobs: Jobs, s: State) returns (at: State)
    requires IsFallible(s) && Fails(p, jobs, s)
    ensures FailsAt(p, jobs, at)
    decreases Order(s)
  {
    if PassedBefore(p, jobs, Order(s)) {
      at := s;
    } else {
      var t: State :| IsFallible(t) && Order(t) < Order(s) && Fails(p, jobs, t);
      at := Earliest(p, jobs, t);
    }
  }

  // The states that can fail, in the order in which they are tried.
  const TRIED := [Prelude, CreateMetafile, CheckStuffed, CreateLocal, PreRead, SetLocal, RequestDatafiles, WriteKeyvals, SetObjAttribs]

  lemma TriedAt(s: State) returns (k: nat)
    requires IsFallible(s)
    ensures k < |TRIED| && TRIED[k] == s && Order(s) == if k <= 6 then k else k + 1
  {
    k := if Order(s) <= 6 then Order(s) else Order(s) - 1;
  }

  lemma TriedOrder(k: nat)
    requires k < |TRIED|
    ensures IsFallible(TRIED[k]) && Order(TRIED[k]) == if k <= 6 then k else k + 1
  {
  }

  lemma FailsAtFirst(p: Plan, jobs: Jobs, k: nat)
    requires k < |TRIED|
    ensures FailsAt(p, jobs, TRIED[k]) <==>
            && jobs.state(TRIED[k]).Some? && (TRIED[k] == RequestDatafiles ==> p.remotes != [])
            && forall j :: 0 <= j < k && jobs.state(TRIED[j]).Some? ==> TRIED[j] == RequestDatafiles && p.remotes == []
  {
    TriedOrder(k);
    forall s: State | IsFallible(s) && Order(s) < Order(TRIED[k]) ensures exists j :: 0 <= j < k && TRIED[j] == s {
      var j := TriedAt(s);
    }
    forall j | 0 <= j < k ensures IsFallible(TRIED[j]) && Order(TRIED[j]) < Order(TRIED[k]) {
      TriedOrder(j);
    }
  }

  // A state that is passed takes the run to the next.
  lemma PassedStep(p: Plan, jobs: Jobs, s: State)
    requires PassedBefore(p, jobs, Order(s)) && IsForward(s) && s != SetupLocal && (IsFallible(s) ==> !Fails(p, jobs, s))
    ensures PassedBefore(p, jobs, Order(s) + 1)
  {
    forall t: State | IsFallible(t) && Order(t) < Order(s) + 1 ensures !Fails(p, jobs, t) {
      if Order(t) == Order(s) {
        assert t == s;
      }
    }
  }

  // Whether a failure in `at` leads through each of the undoing states.
  predicate UndoesMetafile(jobs: Jobs, at: State) {
    at !in {Prelude, CreateMetafile, CheckStuffed} && !(at == SetObjAttribs && jobs.state(RemoveKeyvals).Some?)
  }

  predicate UndoesLocals(jobs: Jobs, at: State) {
    UndoesMetafile(jobs, at) && at !in {CreateLocal, PreRead, SetLocal}
  }

  predicate UndoesRemotes(jobs: Jobs, at: State) {
    UndoesLocals(jobs, at) && at != RequestDatafiles
  }

  predicate GoesBack(jobs: Jobs, i: nat) {
    jobs.lookup(i).None? && jobs.fill(i).None?
  }

  // The server the i-th remote handle was taken from.
  function PoolOf(p: Plan, i: nat): Server {
    if i < |P.Remote(p.servers, p.host)| then P.Remote(p.servers, p.host)[i] else ""
  }

  // The first `n` remote handles, as far as their pools took them back, each
  // with its pool.
  function GivenBack(p: Plan, jobs: Jobs, n: nat): map<Handle, Server>
    requires n <= |p.remotes|
  {
    if n == 0 then map[]
    else if GoesBack(jobs, n - 1) then GivenBack(p, jobs, n - 1)[p.remotes[n - 1] := PoolOf(p, n - 1)]
    else GivenBack(p, jobs, n - 1)
  }

  lemma GivenBackStep(p: Plan, jobs: Jobs, k: nat)
    requires k < |p.remotes|
    ensures GivenBack(p, jobs, k + 1) ==
            if GoesBack(jobs, k) then GivenBack(p, jobs, k)[p.remotes[k] := PoolOf(p, k)] else GivenBack(p, jobs, k)
  {
  }

  function Returned(p: Plan, jobs: Jobs, at: State): map<Handle, Server> {
    if UndoesRemotes(jobs, at) then GivenBack(p, jobs, |p.remotes|) else map[]
  }

  // A handle is returned exactly when both of its jobs succeed, and then to the
  // pool of its own server.
  lemma {:induction false} GivenBackExact(p: Plan, jobs: Jobs, n: nat)
    requires n <= |p.remotes| && P.Distinct(p.remotes)
    ensures forall i :: 0 <= i < |p.remotes| ==> (p.remotes[i] in GivenBack(p, jobs, n) <==> i < n && GoesBack(jobs, i))
    ensures forall i :: 0 <= i < n && GoesBack(jobs, i) ==> GivenBack(p, jobs, n)[p.remotes[i]] == PoolOf(p, i)
    ensures GivenBack(p, jobs, n).Keys <= SetOf(p.remotes)
  {
    if n > 0 {
      GivenBackExact(p, jobs, n - 1);
    }
  }

  function Removed(p: Plan, jobs: Jobs, at: State): set<Handle> {
    (if UndoesLocals(jobs, at) && jobs.state(RemoveLocal).None? then SetOf(p.locals) else {})
    + (if UndoesMetafile(jobs, at) && jobs.state(RemoveMetafile).None? then {p.meta} else {})
  }

  // Every handle's fate, by the state that failed.
  lemma FateOfMetafile(p: Plan, jobs: Jobs, at: State)
    requires ValidPlan(p) && IsFallible(at)
    ensures p.meta in Acquired(p, at) <==> at !in {Prelude, CreateMetafile}
    ensures p.meta in Removed(p, jobs, at) <==>
            && at in {CreateLocal, PreRead, SetLocal, RequestDatafiles, WriteKeyvals, SetObjAttribs}
            && (at == SetObjAttribs ==> jobs.state(RemoveKeyvals).None?) && jobs.state(RemoveMetafile).None?
  {
  }

  lemma FateOfLocal(p: Plan, jobs: Jobs, at: State, h: Handle)
    requires ValidPlan(p) && IsFallible(at) && h in p.locals
    ensures h in Acquired(p, at) <==> at in {PreRead, SetLocal, RequestDatafiles, WriteKeyvals, SetObjAttribs}
    ensures h in Removed(p, jobs, at) <==>
            && at in {RequestDatafiles, WriteKeyvals, SetObjAttribs}
            && (at == SetObjAttribs ==> jobs.state(RemoveKeyvals).None?) && jobs.state(RemoveLocal).None?
  {
  }

  lemma OwnPool(p: Plan, i: nat)
    requires ValidPlan(p) && !p.stuffed && i < |p.servers| && p.servers[i] != p.host
    ensures var k := P.Rank(p.servers, p.host, false, i); k < |p.remotes| && PoolOf(p, k) == p.servers[i]
  {
    P.RemoteAt(p.servers, p.host, i);
  }

  lemma RemoteUndone(p: Plan, jobs: Jobs, at: State, k: nat)
    requires ValidPlan(p) && IsFallible(at) && k < |p.remotes|
    ensures p.remotes[k] in Acquired(p, at) <==> at in {WriteKeyvals, SetObjAttribs}
    ensures p.remotes[k] !in Removed(p, jobs, at)
  {
    PlanSets(p);
    assert p.remotes[k] in SetOf(p.remotes);
  }

  lemma RemoteReturned(p: Plan, jobs: Jobs, at: State, k: nat)
    requires ValidPlan(p) && IsFallible(at) && k < |p.remotes|
    ensures p.remotes[k] in Returned(p, jobs, at) <==>
            && at in {WriteKeyvals, SetObjAttribs} && (at == SetObjAttribs ==> jobs.state(RemoveKeyvals).None?)
            && jobs.lookup(k).None? && jobs.fill(k).None?
    ensures p.remotes[k] in Returned(p, jobs, at) ==> Returned(p, jobs, at)[p.remotes[k]] == PoolOf(p, k)
  {
    GivenBackExact(p, jobs, |p.remotes|);
  }

  // A remote handle that is returned goes back to the server it came from, the
  // one whose place among the remote servers it has.
  lemma FateOfRemote(p: Plan, jobs: Jobs, at: State, i: nat)
    requires ValidPlan(p) && IsFallible(at) && !p.stuffed && i < |p.servers| && p.servers[i] != p.host
    ensures var k := P.Rank(p.servers, p.host, false, i);
            && k < |p.remotes|
            && (p.remotes[k] in Acquired(p, at) <==> at in {WriteKeyvals, SetObjAttribs})
            && (p.remotes[k] in Returned(p, jobs, at) <==>
                  && at in {WriteKeyvals, SetObjAttribs} && (at == SetObjAttribs ==> jobs.state(RemoveKeyvals).None?)
                  && jobs.lookup(k).None? && jobs.fill(k).None?)
            && (p.remotes[k] in Returned(p, jobs, at) ==> Returned(p, jobs, at)[p.remotes[k]] == p.servers[i])
            && p.remotes[k] !in Removed(p, jobs, at)
  {
    OwnPool(p, i);
    var k := P.Rank(p.servers, p.host, false, i);
    RemoteUndone(p, jobs, at, k);
    RemoteReturned(p, jobs, at, k);
  }

  // Handles nothing refers to and nothing took back.
  function Residue(p: Plan, jobs: Jobs, at: State): set<Handle> {
    Acquired(p, at) - Removed(p, jobs, at) - Returned(p, jobs, at).Keys
  }

  predicate CleanupSucceeds(p: Plan, jobs: Jobs) {
    && jobs.state(RemoveKeyvals).None? && jobs.state(RemoveLocal).None? && jobs.state(RemoveMetafile).None?
    && forall i :: 0 <= i < |p.remotes| ==> GoesBack(jobs, i)
  }

  // What is left behind by failing state, when every clean-up job succeeds.
  function Stranded(p: Plan, at: State): set<Handle> {
    match at
    case CheckStuffed => {p.meta}
    case PreRead => SetOf(p.locals)
    case SetLocal => SetOf(p.locals)
    case _ => {}
  }

  lemma Differences(m: set<Handle>, l: set<Handle>, r: set<Handle>)
    requires l !! r && m !! l && m !! r
    ensures m + l - m == l && m + l - (l + m) == {} && m + l + r - (l + m) == r && m + l + r - (l + m) - r == {}
  {
  }

  // Three states lack part of their way back; from every other failing state
  // everything is undone.
  lemma ResidueByState(p: Plan, jobs: Jobs, at: State)
    requires ValidPlan(p) && IsFallible(at) && CleanupSucceeds(p, jobs)
    ensures Residue(p, jobs, at) == Stranded(p, at)
  {
    var l, r, m := SetOf(p.locals), SetOf(p.remotes), {p.meta};
    PlanSets(p);
    Differences(m, l, r);
    if at == WriteKeyvals || at == SetObjAttribs {
      AllGoBack(p, jobs);
    }
  }

  // Every clean-up job succeeding, a failed create leaves nothing behind exactly
  // when it failed elsewhere.
  lemma UndoneIff(p: Plan, jobs: Jobs, at: State)
    requires ValidPlan(p) && IsFallible(at) && CleanupSucceeds(p, jobs)
    ensures Residue(p, jobs, at) == {} <==> at !in {CheckStuffed, PreRead, SetLocal}
  {
    ResidueByState(p, jobs, at);
    assert p.locals[0] in SetOf(p.locals);
  }

  // No remote handle is left behind.
  lemma RemotesGoBack(p: Plan, jobs: Jobs, at: State)
    requires ValidPlan(p) && IsFallible(at) && CleanupSucceeds(p, jobs)
    ensures Residue(p, jobs, at) !! SetOf(p.remotes)
  {
    ResidueByState(p, jobs, at);
    PlanSets(p);
  }

  lemma {:induction false} SameGivenBack(p: Plan, jobs: Jobs, other: Jobs, n: nat)
    requires jobs.lookup == other.lookup && jobs.fill == other.fill && n <= |p.remotes|
    ensures GivenBack(p, jobs, n) == GivenBack(p, other, n)
  {
    if n > 0 {
      SameGivenBack(p, jobs, other, n - 1);
    }
  }

  // How the attribute message ends makes no difference to how a run does.
  lemma MessageIgnored(p: Plan, jobs: Jobs, other: Jobs)
    requires jobs.lookup == other.lookup && jobs.fill == other.fill
    requires forall s :: s != SetDatafileAttrib ==> jobs.state(s) == other.state(s)
    ensures Succeeds(p, jobs) <==> Succeeds(p, other)
    ensures forall at :: FailsAt(p, jobs, at) <==> FailsAt(p, other, at)
    ensures forall at :: Removed(p, jobs, at) == Removed(p, other, at) && Returned(p, jobs, at) == Returned(p, other, at)
  {
    SameGivenBack(p, jobs, other, |p.remotes|);
    assert forall s :: IsFallible(s) ==> Fails(p, jobs, s) == Fails(p, other, s);
    forall k: nat ensures PassedBefore(p, jobs, k) == PassedBefore(p, other, k) {
    }
  }

  lemma PlanSets(p: Plan)
    requires ValidPlan(p)
    ensures SetOf(p.locals) !! SetOf(p.remotes) && {p.meta} !! SetOf(p.locals) && {p.meta} !! SetOf(p.remotes)
  {
  }

  lemma AllGoBack(p: Plan, jobs: Jobs)
    requires ValidPlan(p) && CleanupSucceeds(p, jobs)
    ensures GivenBack(p, jobs, |p.remotes|).Keys == SetOf(p.remotes)
  {
    GivenBackExact(p, jobs, |p.remotes|);
  }

  // Where the way back begins for each failing state.
  function Entry(at: State): State {
    match at
    case CreateLocal => RemoveMetafile
    case PreRead => RemoveMetafile
    case SetLocal => RemoveMetafile
    case RequestDatafiles => RemoveLocal
    case WriteKeyvals => ReplaceRemote
    case SetObjAttribs => RemoveKeyvals
    case _ => SetupFinal
  }

  // At its entry nothing that the rest of the way skips should have been undone.
  lemma NothingBefore(p: Plan, jobs: Jobs, at: State)
    requires IsFallible(at)
    ensures Entry(at) == SetupFinal ==> Removed(p, jobs, at) == {} && Returned(p, jobs, at) == map[]
    ensures Entry(at) == RemoveMetafile ==> Removed(p, jobs, at) - {p.meta} == {} && Returned(p, jobs, at) == map[]
    ensures Entry(at) == RemoveLocal ==> Returned(p, jobs, at) == map[]
    ensures Entry(at) == ReplaceRemote ==> GivenBack(p, jobs, 0) == map[]
  {
  }

  // No handle is both removed and returned, and none that was not acquired.
  lemma LedgerIsExact(p: Plan, jobs: Jobs, at: State)
    requires ValidPlan(p) && IsFallible(at)
    ensures Removed(p, jobs, at) + Returned(p, jobs, at).Keys + Residue(p, jobs, at) == Acquired(p, at)
    ensures Removed(p, jobs, at) !! Returned(p, jobs, at).Keys
  {
    PlanSets(p);
    GivenBackExact(p, jobs, |p.remotes|);
  }

  // --------------------------------------------------------------------------
  // The handle array, after each of its two scatters.
  // --------------------------------------------------------------------------

  // `prior` is what the array held when it was allocated.
  function LocalPlacement(p: Plan, prior: seq<Handle>): seq<Handle>
    requires p.stuffed || |prior| == |p.servers|
  {
    if p.stuffed then p.locals
    else seq(|p.servers|, i requires 0 <= i < |p.servers| => P.Slot(p.servers, p.host, true, p.locals, prior[i], i))
  }

  function FullPlacement(p: Plan, prior: seq<Handle>): seq<Handle>
    requires p.stuffed || |prior| == |p.servers|
  {
    if p.stuffed then p.locals
    else
      var between := LocalPlacement(p, prior);
      seq(|p.servers|, i requires 0 <= i < |p.servers| => P.Slot(p.servers, p.host, false, p.remotes, between[i], i))
  }

  lemma FullPlacementPlaces(p: Plan, prior: seq<Handle>)
    requires ValidPlan(p) && !p.stuffed && |prior| == |p.servers|
    ensures P.Placed(p.servers, p.host, p.locals, p.remotes, FullPlacement(p, prior))
  {
    P.ScattersPlace(p.servers, p.host, p.locals, p.remotes, prior, LocalPlacement(p, prior), FullPlacement(p, prior));
  }

  // --------------------------------------------------------------------------
  // The machine.
  // --------------------------------------------------------------------------

  class Machine {
    const plan: Plan
    const jobs: Jobs
    const remoteServers: array<Server>   // filled by the partition loop
    const datafiles: array<Handle>       // the response's handles, in stripe order
    var state: State
    var error: int                       // code left by the last action
    var saved: int                       // first error, once clean-up has begun
    var handleIndex: nat
    var remoteCt: nat
    var created: set<Handle>
    var removed: set<Handle>
    var returned: map<Handle, Server>    // handle and the pool it went back to
    var responses: nat
    var status: int
    ghost var failed: Option<State>
    ghost var prior: seq<Handle>         // what the handle array held at first

    ghost predicate Sized()
      reads this`prior
    {
      && |prior| == datafiles.Length
      && ValidPlan(plan) && remoteServers.Length == |plan.servers|
      && datafiles.Length == (if plan.stuffed then 1 else |plan.servers|)
    }

    // Nothing has failed, and nothing has been undone.
    ghost predicate Forward(at: State)
      reads this`error, this`saved, this`handleIndex, this`created, this`removed, this`returned, this`responses, this`failed
    {
      && failed == None && error == 0 && saved == 0 && handleIndex == 0 && responses == 0
      && created == Acquired(plan, at) && removed == {} && returned == map[]
      && PassedBefore(plan, jobs, Order(at))
    }

    ghost predicate Partitioned()
      reads this`remoteCt, remoteServers
    {
      && remoteCt == |plan.remotes|
      && (plan.stuffed || (remoteCt <= remoteServers.Length && remoteServers[..remoteCt] == P.Remote(plan.servers, plan.host)))
    }

    // State `at` was the first to fail; its error is the one to report.
    ghost predicate Failing(at: State)
      reads this`error, this`saved, this`created, this`responses, this`failed
    {
      && failed == Some(at) && FailsAt(plan, jobs, at) && responses == 0
      && created == Acquired(plan, at)
      && (saved == jobs.state(at).value || (saved == 0 && error == jobs.state(at).value))
    }

    // The handles before the current one have been seen to.
    ghost predicate Replacing()
      reads this`handleIndex, this`returned
    {
      handleIndex <= |plan.remotes| && returned == GivenBack(plan, jobs, handleIndex)
    }

    ghost predicate Undoing(at: State)
      reads this`state, this`handleIndex, this`removed, this`returned, this`remoteCt, remoteServers
    {
      match state {
           case RemoveKeyvals => at == SetObjAttribs && handleIndex == 0 && removed == {} && returned == map[] && Partitioned()
           case ReplaceRemote => UndoesRemotes(jobs, at) && Partitioned() && removed == {} && Replacing()
           case RemoveLocal => UndoesLocals(jobs, at) && removed == {} && returned == Returned(plan, jobs, at)
           case RemoveMetafile =>
             && UndoesMetafile(jobs, at) && returned == Returned(plan, jobs, at)
             && removed == Removed(plan, jobs, at) - {plan.meta}
           case SetupFinal => returned == Returned(plan, jobs, at) && removed == Removed(plan, jobs, at)
           case _ => false
      }
    }

    ghost predicate Ahead()
      reads this, remoteServers, datafiles
      requires Sized()
    {
      && Forward(state)
      && (Order(state) >= 4 ==> Partitioned())
      && (Order(state) < 6 || state == SetupLocal ==> datafiles[..] == prior)
      && (6 <= Order(state) < 9 && state != SetupLocal ==> datafiles[..] == LocalPlacement(plan, prior))
      && (Order(state) >= 9 ==> datafiles[..] == FullPlacement(plan, prior))
    }

    ghost predicate Back()
      reads this, remoteServers
    {
      Sized() && failed.Some? && Failing(failed.value) && Undoing(failed.value)
    }

    ghost predicate Inv()
      reads this, remoteServers, datafiles
    {
      && Sized()
      && if IsForward(state) then Ahead()
         else if state in {RemoveKeyvals, ReplaceRemote, RemoveLocal, RemoveMetafile} then Back()
         else if state == SetupFinal then
           if failed.Some? then Back() else Forward(SetupResp) && datafiles[..] == FullPlacement(plan, prior)
         else Settled()
    }

    // How the run ended, in terms of the jobs alone.
    ghost predicate Settled()
      reads this, datafiles
      requires Sized()
    {
      && (failed.None? ==>
            && Succeeds(plan, jobs) && error == 0 && created == Acquired(plan, SetupResp)
            && removed == {} && returned == map[] && datafiles[..] == FullPlacement(plan, prior))
      && (failed.Some? ==>
            && FailsAt(plan, jobs, failed.value) && error == jobs.state(failed.value).value
            && created == Acquired(plan, failed.value) && removed == Removed(plan, jobs, failed.value)
            && returned == Returned(plan, jobs, failed.value))
      && responses == (if state == Cleanup || state == Terminated then 1 else 0)
      && (state == Cleanup || state == Terminated ==> status == error)
    }

    constructor (plan: Plan, jobs: Jobs)
      requires ValidPlan(plan)
      ensures this.plan == plan && this.jobs == jobs && Inv() && state == Prelude
      ensures fresh(remoteServers) && fresh(datafiles)
    {
      this.plan, this.jobs := plan, jobs;
      remoteServers := new Server[|plan.servers|](_ => "");
      datafiles := new Handle[if plan.stuffed then 1 else |plan.servers|];
      state, error, saved, handleIndex, remoteCt := Prelude, 0, 0, 0, 0;
      created, removed, returned, responses, status := {}, {}, map[], 0, 0;
      failed := None;
      new;
      prior := datafiles[..];
    }

    // A forward state whose job failed hands over to the state that begins the
    // way back, or to the response.
    method Fail()
      requires Sized() && Forward(state) && (Order(state) >= 4 ==> Partitioned())
      requires IsFallible(state) && Fails(plan, jobs, state)
      modifies this`error, this`state, this`failed
      ensures Back() && state == Entry(old(state))
    {
      NothingBefore(plan, jobs, state);
      error := jobs.state(state).value;
      failed := Some(state);
      state := Entry(state);
    }

    method Advance(next: State, made: set<Handle>)
      requires Sized() && IsForward(state) && Forward(state) && (IsFallible(state) ==> !Fails(plan, jobs, state))
      requires IsForward(next) && Acquired(plan, next) == Acquired(plan, state) + made
      requires Order(next) == (if state == SetupLocal then Order(state) else Order(state) + 1) && state != SetupResp
      modifies this`error, this`state, this`created
      ensures Forward(next) && state == next
    {
      if state != SetupLocal {
        PassedStep(plan, jobs, state);
      }
      error := 0;
      created := created + made;
      state := next;
    }

    // ---- The forward states.

    // States that only post a job: the prelude, the metafile, the choice of a
    // layout, the two attribute jobs on the local datafile, and the attributes of
    // the new file.
    method PostJob(next: State, made: set<Handle>)
      requires Inv() && IsFallible(state) && !(state in {CreateLocal, RequestDatafiles, WriteKeyvals})
      requires next == match state {
                         case Prelude => CreateMetafile case CreateMetafile => CheckStuffed case CheckStuffed => CreateLocal
                         case PreRead => SetLocal case SetLocal => SetupLocal
                         case _ => SetupResp
                       }
      requires made == if state == CreateMetafile then {plan.meta} else {}
      modifies this`error, this`state, this`created, this`failed
      ensures Inv() && state == if Fails(plan, jobs, old(state)) then Entry(old(state)) else next
    {
      if Fails(plan, jobs, state) {
        Fail();
      } else {
        Advance(next, made);
      }
    }

    method CreateLocalDatafiles()
      requires Inv() && state == CreateLocal
      modifies this`remoteCt, this`error, this`state, this`created, this`failed, remoteServers
      ensures Inv() && state == if Fails(plan, jobs, CreateLocal) then RemoveMetafile else PreRead
    {
      if plan.stuffed {
        remoteCt := 0;
      } else {
        var localCt;
        localCt, remoteCt := P.Partition(plan.servers, plan.host, remoteServers);
      }
      if Fails(plan, jobs, CreateLocal) {
        Fail();
      } else {
        Advance(PreRead, SetOf(plan.locals));
      }
    }

    method SetupLocalDatafileHandles()
      requires Inv() && state == SetupLocal
      modifies this`error, this`state, this`created, datafiles
      ensures Inv() && state == RequestDatafiles
    {
      if plan.stuffed {
        datafiles[0] := plan.locals[0];
      } else {
        P.Scatter(plan.servers, plan.host, true, plan.locals, datafiles);
      }
      assert datafiles[..] == LocalPlacement(plan, prior);
      Advance(RequestDatafiles, {});
    }

    method AskPools()
      requires Inv() && state == RequestDatafiles
      modifies this`error, this`state, this`created, this`failed
      ensures Inv() && state == if Fails(plan, jobs, RequestDatafiles) then RemoveLocal else SetDatafileAttrib
    {
      if remoteCt == 0 {
        Advance(SetDatafileAttrib, SetOf(plan.remotes));
      } else if jobs.state(RequestDatafiles).Some? {
        Fail();
      } else {
        Advance(SetDatafileAttrib, SetOf(plan.remotes));
      }
    }

    // The nested machine that tells the remote servers: it stops early without
    // remote datafiles or on an error, and its last state clears the code.
    method SetRemoteAttributes()
      requires Inv() && state == SetDatafileAttrib
      modifies this`error, this`state, this`created
      ensures Inv() && state == WriteKeyvals
    {
      if remoteCt == 0 {
        error := 1;
      } else if jobs.state(SetDatafileAttrib).Some? {
        error := jobs.state(SetDatafileAttrib).value;
      }
      error := 0;
      Advance(WriteKeyvals, {});
    }

    method PlaceRemotes()
      requires Inv() && state == WriteKeyvals
      modifies datafiles
      ensures datafiles[..] == FullPlacement(plan, prior)
    {
      ghost var between := datafiles[..];
      if remoteCt != 0 {
        P.Scatter(plan.servers, plan.host, false, plan.remotes, datafiles);
      }
      assert datafiles[..] == FullPlacement(plan, prior);
    }

    method WriteKeyvalsAndPlace()
      requires Inv() && state == WriteKeyvals
      modifies this`error, this`state, this`created, this`failed, datafiles
      ensures Inv() && state == if Fails(plan, jobs, WriteKeyvals) then ReplaceRemote else SetObjAttribs
    {
      PlaceRemotes();
      if Fails(plan, jobs, WriteKeyvals) {
        Fail();
      } else {
        Advance(SetObjAttribs, {});
      }
    }

    method SetupResponse()
      requires Inv() && state == SetupResp
      modifies this`state
      ensures Inv() && state == SetupFinal
    {
      state := SetupFinal;
    }

    // ---- The way back. Each state first saves the error it was entered with,
    // unless one is saved already.

    method Save()
      requires Back() && state in {RemoveKeyvals, ReplaceRemote, RemoveLocal, RemoveMetafile}
      modifies this`saved
      ensures Back() && saved == jobs.state(failed.value).value
    {
      if saved == 0 {
        saved := error;
      }
    }

    method UndoKeyvals()
      requires Back() && state == RemoveKeyvals
      modifies this`saved, this`error, this`state
      ensures Back() && state == if jobs.state(RemoveKeyvals).Some? then SetupFinal else ReplaceRemote
    {
      Save();
      var r := jobs.state(RemoveKeyvals);
      if r.Some? {
        error := r.value;
        state := SetupFinal;
      } else {
        error := 0;
        state := ReplaceRemote;
      }
    }

    // One remote handle goes back to its pool, unless one of the two jobs fails.
    method ReturnHandle(k: nat, pool: Server)
      requires k < |plan.remotes|
      modifies this`error, this`returned
      ensures returned == if GoesBack(jobs, k) then old(returned)[plan.remotes[k] := pool] else old(returned)
    {
      if jobs.lookup(k).Some? {
        error := jobs.lookup(k).value;
      } else if jobs.fill(k).Some? {
        error := jobs.fill(k).value;
      } else {
        error := 0;
        returned := returned[plan.remotes[k] := pool];
      }
    }

    // The server that the partition loop noted for a remote handle.
    method ServerOf(k: nat) returns (pool: Server)
      requires Sized() && Partitioned() && k < |plan.remotes|
      ensures pool == PoolOf(plan, k)
    {
      pool := remoteServers[k];
      assert pool == remoteServers[..remoteCt][k];
    }

    // A failure only skips the handle.
    method ReplaceOne()
      requires Sized() && Partitioned() && Replacing() && handleIndex < |plan.remotes|
      modifies this`error, this`handleIndex, this`returned
      ensures Replacing() && handleIndex == old(handleIndex) + 1
    {
      var k := handleIndex;
      var pool := ServerOf(k);
      ReturnHandle(k, pool);
      handleIndex := k + 1;
      GivenBackStep(plan, jobs, k);
    }

    method AllReplaced()
      requires Back() && state == ReplaceRemote && saved == jobs.state(failed.value).value
      requires handleIndex == |plan.remotes|
      modifies this`error, this`state
      ensures Back() && state == RemoveLocal
    {
      error := REPLACE_DONE;
      state := RemoveLocal;
    }

    method ReplaceRemoteHandles()
      requires Back() && state == ReplaceRemote
      modifies this`saved, this`error, this`handleIndex, this`returned, this`state
      ensures Back()
      ensures if old(handleIndex) < |plan.remotes| then state == ReplaceRemote && handleIndex == old(handleIndex) + 1
              else state == RemoveLocal
    {
      Save();
      if handleIndex < remoteCt {
        ReplaceOne();
      } else {
        AllReplaced();
      }
    }

    method UndoLocals()
      requires Back() && state == RemoveLocal
      modifies this`saved, this`error, this`removed, this`state
      ensures Back() && state == RemoveMetafile
    {
      Save();
      var r := jobs.state(RemoveLocal);
      if r.Some? {
        error := r.value;
      } else {
        error := 0;
        removed := removed + SetOf(plan.locals);
      }
      state := RemoveMetafile;
    }

    method UndoMetafile()
      requires Back() && state == RemoveMetafile
      modifies this`saved, this`error, this`removed, this`state
      ensures Back() && state == SetupFinal
    {
      Save();
      var r := jobs.state(RemoveMetafile);
      if r.Some? {
        error := r.value;
      } else {
        error := 0;
        removed := removed + {plan.meta};
      }
      assert removed == Removed(plan, jobs, failed.value);
      state := SetupFinal;
    }

    // ---- The response.

    method SetupFinalResponse()
      requires Inv() && state == SetupFinal
      modifies this`error, this`state
      ensures Inv() && state == FinalResponse
    {
      if saved != 0 {
        error := saved;
      }
      state := FinalResponse;
    }

    method SendResponse()
      requires Inv() && state == FinalResponse
      modifies this`responses, this`status, this`state
      ensures Inv() && state == Cleanup
    {
      responses := responses + 1;
      status := error;
      state := Cleanup;
    }

    // Steps left, but for the handles still to be returned.
    function Stage(): nat
      reads this`state
    {
      match state
      case Prelude => 19 case CreateMetafile => 18 case CheckStuffed => 17 case CreateLocal => 16 case PreRead => 15
      case SetLocal => 14 case SetupLocal => 13 case RequestDatafiles => 12 case SetDatafileAttrib => 11
      case WriteKeyvals => 10 case SetObjAttribs => 9 case SetupResp => 8 case RemoveKeyvals => 7
      case ReplaceRemote => 6 case RemoveLocal => 5 case RemoveMetafile => 4 case SetupFinal => 3
      case FinalResponse => 2 case Cleanup => 1 case Terminated => 0
    }

    method StepForward()
      requires Inv() && IsForward(state)
      modifies this, remoteServers, datafiles
      ensures Inv() && Stage() < old(Stage())
    {
      if Order(state) < 4 {
        StepToLocals();
      } else if Order(state) < 8 {
        StepToRemotes();
      } else {
        StepToResponse();
      }
    }

    method StepToLocals()
      requires Inv() && IsForward(state) && Order(state) < 4
      modifies this, remoteServers
      ensures Inv() && Stage() < old(Stage())
    {
      match state
      case Prelude => PostJob(CreateMetafile, {});
      case CreateMetafile => PostJob(CheckStuffed, {plan.meta});
      case CheckStuffed => PostJob(CreateLocal, {});
      case CreateLocal => CreateLocalDatafiles();
    }

    method StepToRemotes()
      requires Inv() && IsForward(state) && 4 <= Order(state) < 8
      modifies this, datafiles
      ensures Inv() && Stage() < old(Stage())
    {
      match state
      case PreRead => PostJob(SetLocal, {});
      case SetLocal => PostJob(SetupLocal, {});
      case SetupLocal => SetupLocalDatafileHandles();
      case RequestDatafiles => AskPools();
      case SetDatafileAttrib => SetRemoteAttributes();
    }

    method StepToResponse()
      requires Inv() && IsForward(state) && 8 <= Order(state)
      modifies this, datafiles
      ensures Inv() && Stage() < old(Stage())
    {
      match state
      case WriteKeyvals => WriteKeyvalsAndPlace();
      case SetObjAttribs => PostJob(SetupResp, {});
      case SetupResp => SetupResponse();
    }

    method StepBack()
      requires Back() && state in {RemoveKeyvals, ReplaceRemote, RemoveLocal, RemoveMetafile}
      modifies this
      ensures Back()
      ensures Stage() < old(Stage()) ||
              (state == old(state) == ReplaceRemote && old(handleIndex) < handleIndex <= |plan.remotes|)
    {
      match state
      case RemoveKeyvals => UndoKeyvals();
      case ReplaceRemote => ReplaceRemoteHandles();
      case RemoveLocal => UndoLocals();
      case RemoveMetafile => UndoMetafile();
    }

    method StepOut()
      requires Inv() && state in {SetupFinal, FinalResponse, Cleanup}
      modifies this
      ensures Inv() && Stage() < old(Stage())
    {
      match state
      case SetupFinal => SetupFinalResponse();
      case FinalResponse => SendResponse();
      case Cleanup => state := Terminated;
    }

    // Every run ends, and has then settled as the jobs alone determine.
    method Run()
      requires Inv() && state == Prelude
      modifies this, remoteServers, datafiles
      ensures Sized() && state == Terminated && Settled()
    {
      while state != Terminated
        invariant Inv()
        decreases Stage(), |plan.remotes| - handleIndex
      {
        if IsForward(state) {
          StepForward();
        } else if state in {SetupFinal, FinalResponse, Cleanup} {
          StepOut();
        } else {
          StepBack();
        }
      }
    }
  }

  // --------------------------------------------------------------------------
  // A whole request.
  // --------------------------------------------------------------------------

  datatype Outcome = Outcome(
    status: int, responses: nat, created: set<Handle>, removed: set<Handle>, returned: map<Handle, Server>,
    datafiles: seq<Handle>)

  lemma ReturnedToOwner(p: Plan, jobs: Jobs, returned: map<Handle, Server>, failed: Option<State>)
    requires ValidPlan(p)
    requires if failed.None? then returned == map[] else IsFallible(failed.value) && returned == Returned(p, jobs, failed.value)
    ensures forall i :: 0 <= i < |p.servers| && p.servers[i] != p.host && !p.stuffed ==>
              var k := P.Rank(p.servers, p.host, false, i);
              k < |p.remotes| && (p.remotes[k] in returned ==> returned[p.remotes[k]] == p.servers[i])
    ensures p.stuffed ==> returned == map[]
  {
    forall i | 0 <= i < |p.servers| && p.servers[i] != p.host && !p.stuffed
      ensures var k := P.Rank(p.servers, p.host, false, i);
              k < |p.remotes| && (p.remotes[k] in returned ==> returned[p.remotes[k]] == p.servers[i])
    {
      FateOfRemote(p, jobs, if failed.Some? then failed.value else Prelude, i);
    }
  }

  // One response; the first error, whatever fails on the way back; and for
  // every handle acquired, its fate.
  method CreateFile(plan: Plan, jobs: Jobs) returns (r: Outcome)
    requires ValidPlan(plan)
    ensures r.responses == 1
    ensures Succeeds(plan, jobs) ==>
              && r.status == 0 && r.created == Acquired(plan, SetupResp) && r.removed == {} && r.returned == map[]
              && (if plan.stuffed then r.datafiles == plan.locals
                  else P.Placed(plan.servers, plan.host, plan.locals, plan.remotes, r.datafiles))
    ensures forall at :: FailsAt(plan, jobs, at) ==>
              && r.status == jobs.state(at).value && r.created == Acquired(plan, at)
              && r.removed == Removed(plan, jobs, at) && r.returned == Returned(plan, jobs, at)
    ensures forall i :: 0 <= i < |plan.servers| && plan.servers[i] != plan.host && !plan.stuffed ==>
              var k := P.Rank(plan.servers, plan.host, false, i);
              k < |plan.remotes| && (plan.remotes[k] in r.returned ==> r.returned[plan.remotes[k]] == plan.servers[i])
    ensures plan.stuffed ==> r.returned == map[]
  {
    var m := new Machine(plan, jobs);
    m.Run();
    SucceedsOrFails(plan, jobs);
    if !plan.stuffed { FullPlacementPlaces(plan, m.prior); }
    r := Outcome(m.status, m.responses, m.created, m.removed, m.returned, m.datafiles[..]);
    ReturnedToOwner(plan, jobs, r.returned, m.failed);
  }
}
