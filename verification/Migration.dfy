// Live migration of one datafile between two I/O servers, interleaved with any
// number of client I/O machines: which writes can be lost, and exactly when.

module Migration {
  import F = Fresh

  type Handle = nat
  type Content = seq<int>

  const NULL_HANDLE: Handle := 0

  // --------------------------------------------------------------------------
  // The metadata server's part: one datafile handle of a metafile is exchanged.
  // --------------------------------------------------------------------------

  // The handle array after the first occurrence of `was` became `copy`.
  function ReplaceFirst(handles: seq<Handle>, was: Handle, copy: Handle): (r: seq<Handle>)
    ensures |r| == |handles|
  {
    if handles == [] then []
    else if handles[0] == was then [copy] + handles[1..]
    else [handles[0]] + ReplaceFirst(handles[1..], was, copy)
  }

  predicate Distinct(handles: seq<Handle>) {
    forall i, j :: 0 <= i < j < |handles| ==> handles[i] != handles[j]
  }

  // Exactly the first slot of the old handle changes.
  lemma {:induction false} ReplaceFirstAt(handles: seq<Handle>, was: Handle, copy: Handle, k: nat)
    requires k < |handles| && handles[k] == was && was !in handles[..k]
    ensures ReplaceFirst(handles, was, copy) == handles[k := copy]
  {
    if k == 0 {
    } else {
      assert handles[0] in handles[..k];
      assert handles[1..][..k - 1] == handles[..k][1..];
      ReplaceFirstAt(handles[1..], was, copy, k - 1);
    }
  }

  lemma {:induction false} ReplaceFirstAbsent(handles: seq<Handle>, was: Handle, copy: Handle)
    requires was !in handles
    ensures ReplaceFirst(handles, was, copy) == handles
  {
    if handles == [] {
    } else {
      assert handles[0] in handles;
      ReplaceFirstAbsent(handles[1..], was, copy);
    }
  }

  // A setattr that arrives a second time, after the exchange, changes nothing.
  lemma UpdateRepeated(handles: seq<Handle>, was: Handle, copy: Handle)
    requires Distinct(handles) && was in handles && copy != was
    ensures var once := ReplaceFirst(handles, was, copy); ReplaceFirst(once, was, copy) == once
  {
    var k :| 0 <= k < |handles| && handles[k] == was;
    ReplaceFirstAt(handles, was, copy, k);
    ReplaceFirstAbsent(handles[k := copy], was, copy);
  }

  // The loop of the setattr machine, in place on the array read from the store.
  method ReplaceDatafileHandle(handles: array<Handle>, was: Handle, copy: Handle)
    modifies handles
    ensures handles[..] == ReplaceFirst(old(handles[..]), was, copy)
  {
    ghost var before := handles[..];
    var i := 0;
    while i < handles.Length
      invariant 0 <= i <= handles.Length
      invariant handles[..] == before && was !in before[..i]
    {
      if handles[i] == was {
        ReplaceFirstAt(before, was, copy, i);
        handles[i] := copy;
        assert handles[..] == before[i := copy];
        return;
      }
      assert before[..i + 1] == before[..i] + [handles[i]];
      i := i + 1;
    }
    assert before[..i] == before;
    ReplaceFirstAbsent(before, was, copy);
  }

  // --------------------------------------------------------------------------
  // The step system.
  // --------------------------------------------------------------------------

  // Program counter of the migration machine on the source server. The first
  // state, which picks the datafile and closes the gate on it, has just run
  // when a run begins.
  datatype SourcePc =
    | GetAttr | SendRequest | AwaitResponse | PostFlow | Flowing | AwaitAck
    | SendTest | PrepareUpdate | AwaitUpdate | RemoveOld | Cleanup | Finalize | Idle

  // Program counter of the machine that receives the datafile.
  datatype PeerPc = Waiting | Asked | Created | Receiving | Stored | Ended

  // A client's write on a datafile of the source server.
  datatype WriterPc = AtGate | PastGate | Refused | Finished
  datatype Writer = Writer(handle: Handle, pc: WriterPc)

  datatype State = State(
    store: map<Handle, Content>,    // every datafile, on every server
    dfiles: seq<Handle>,            // the metafile's datafile array
    expected: seq<Content>,         // history: what clients have written, stripe by stripe
    migState: bool,                 // the source server's two migration globals
    migHandle: Handle,
    pc: SourcePc,
    h: Handle,                      // the datafile being moved
    size: nat,                      // its size as the source read it
    target: Handle,                 // handle learnt from the response
    sent: nat,                      // bytes of the flow already read and sent
    wire: Content,                  // bytes sent and not yet stored
    peer: PeerPc,
    asked: nat,                     // size named in the migration request
    copy: Handle,                  // the datafile the peer created
    acked: bool,                    // a completion acknowledgement was sent
    updateSent: bool,               // a setattr is under way to the metadata server
    switched: bool,                 // the metadata server has exchanged the handle
    writers: map<nat, Writer>
  )

  // What the surroundings may do while the migration runs.
  datatype Env = Env(
    incoming: bool,   // this server also accepts a migration as a target
    ungated: bool,    // data changes without passing the gate: small I/O, truncate
    late: bool        // a setattr may take effect after the source stopped waiting
  )

  const QUIET := Env(false, false, false)

  datatype Step =
    | ReadSize | Request | LearnTarget | BeginFlow | FlowSend(n: nat) | FlowSent
    | ReceiveAck | TestSent | UpdatePrepared | UpdateIgnored | OldKept | CleanedUp | Finalized
    | SourceFails
    | PeerCreates(handle: Handle) | PeerAccepts | FlowStore(n: nat) | PeerStored | PeerAcks | PeerFails
    | Switch
    | Arrive(id: nat, handle: Handle) | Gate(id: nat) | Write(id: nat, data: Content) | Finish(id: nat)
    | ArriveUngated(id: nat, handle: Handle)
    | IncomingAccepted(handle: Handle) | IncomingReleased

  predicate GateClosed(s: State, x: Handle) {
    s.migState && x == s.migHandle
  }

  predicate SourceActive(pc: SourcePc) {
    !(pc in {Cleanup, Finalize, Idle})
  }

  // A client knows a datafile only through a metafile, never the fresh one.
  predicate Addressable(s: State, x: Handle) {
    x in s.store && x != s.copy
  }

  predicate Enabled(env: Env, s: State, step: Step) {
    !s.switched && |s.dfiles| == |s.expected| &&
    match step
    case ReadSize => s.pc == GetAttr && s.h in s.store
    case Request => s.pc == SendRequest && s.peer == Waiting
    case LearnTarget => s.pc == AwaitResponse && s.peer in {Receiving, Stored, Ended} && s.copy != NULL_HANDLE
    case BeginFlow => s.pc == PostFlow
    case FlowSend(n) => s.pc == Flowing && s.h in s.store && s.sent + n <= s.size && s.sent + n <= |s.store[s.h]|
    case FlowSent => s.pc == Flowing && s.sent == s.size
    case ReceiveAck => s.pc == AwaitAck && s.acked
    case TestSent => s.pc == SendTest
    case UpdatePrepared => s.pc == PrepareUpdate
    case UpdateIgnored => s.pc == AwaitUpdate
    case OldKept => s.pc == RemoveOld
    case CleanedUp => s.pc == Cleanup
    case Finalized => s.pc == Finalize
    case SourceFails => SourceActive(s.pc)
    case PeerCreates(n) => s.peer == Asked && n !in s.store && n != NULL_HANDLE
    case PeerAccepts => s.peer == Created
    case FlowStore(n) => s.peer == Receiving && s.copy in s.store && n <= |s.wire| && |s.store[s.copy]| + n <= s.asked
    case PeerStored => s.peer == Receiving && s.copy in s.store && |s.store[s.copy]| == s.asked
    case PeerAcks => s.peer == Stored
    case PeerFails => s.peer in {Asked, Created, Receiving, Stored}
    case Switch => s.updateSent && (s.pc == AwaitUpdate || env.late)
    case Arrive(i, x) => i !in s.writers && Addressable(s, x)
    case Gate(i) => i in s.writers && s.writers[i].pc == AtGate
    case Write(i, _) => i in s.writers && s.writers[i].pc == PastGate
    case Finish(i) => i in s.writers && s.writers[i].pc == PastGate
    case ArriveUngated(i, x) => env.ungated && i !in s.writers && Addressable(s, x)
    case IncomingAccepted(n) => env.incoming && n !in s.store && n != NULL_HANDLE
    case IncomingReleased => env.incoming
  }

  // The stripes of the file after a client wrote `data` to datafile `x`.
  function Expect(dfiles: seq<Handle>, expected: seq<Content>, x: Handle, data: Content): (r: seq<Content>)
    requires |dfiles| == |expected|
    ensures |r| == |expected|
    ensures forall i :: 0 <= i < |r| ==> r[i] == if dfiles[i] == x then data else expected[i]
  {
    seq(|expected|, i requires 0 <= i < |expected| => if dfiles[i] == x then data else expected[i])
  }

  function SetPc(s: State, i: nat, pc: WriterPc): State
    requires i in s.writers
  {
    s.(writers := s.writers[i := s.writers[i].(pc := pc)])
  }

  function Apply(env: Env, s: State, step: Step): State
    requires Enabled(env, s, step)
  {
    match step
    case ReadSize => s.(pc := SendRequest, size := |s.store[s.h]|)
    case Request => s.(pc := AwaitResponse, peer := Asked, asked := s.size)
    case LearnTarget => s.(pc := PostFlow, target := s.copy)
    case BeginFlow => s.(pc := Flowing)
    case FlowSend(n) => s.(sent := s.sent + n, wire := s.wire + s.store[s.h][s.sent..s.sent + n])
    case FlowSent => s.(pc := AwaitAck)
    case ReceiveAck => s.(pc := SendTest)
    case TestSent => s.(pc := PrepareUpdate)
    case UpdatePrepared => s.(pc := AwaitUpdate, updateSent := true)
    case UpdateIgnored => s.(pc := RemoveOld)
    case OldKept => s.(pc := Cleanup)
    case CleanedUp => s.(pc := Finalize)
    case Finalized => s.(pc := Idle, migState := false)
    case SourceFails => s.(pc := Cleanup)
    case PeerCreates(n) => s.(peer := Created, copy := n, store := s.store[n := []])
    case PeerAccepts => s.(peer := Receiving)
    case FlowStore(n) =>
      s.(store := s.store[s.copy := s.store[s.copy] + s.wire[..n]], wire := s.wire[n..])
    case PeerStored => s.(peer := Stored)
    case PeerAcks => s.(peer := Ended, acked := true)
    case PeerFails => s.(peer := Ended)
    case Switch => s.(dfiles := ReplaceFirst(s.dfiles, s.h, s.target), switched := true)
    case Arrive(i, x) => s.(writers := s.writers[i := Writer(x, AtGate)])
    case Gate(i) => SetPc(s, i, if GateClosed(s, s.writers[i].handle) then Refused else PastGate)
    case Write(i, data) =>
      var x := s.writers[i].handle;
      s.(store := s.store[x := data], expected := Expect(s.dfiles, s.expected, x, data))
    case Finish(i) => SetPc(s, i, Finished)
    case ArriveUngated(i, x) => s.(writers := s.writers[i := Writer(x, PastGate)])
    case IncomingAccepted(n) => s.(migState := true, migHandle := n, store := s.store[n := []])
    case IncomingReleased => s.(migState := false)
  }

  datatype System = System(enabled: (State, Step) -> bool, apply: (State, Step) -> State)

  function Cluster(env: Env): System {
    System((s, step) => Enabled(env, s, step), (s, step) => if Enabled(env, s, step) then Apply(env, s, step) else s)
  }

  // A run is a list of steps, each enabled where it is taken. No step of the
  // cluster follows the exchange of the handle: its runs are judged up to and
  // including it.
  predicate Legal(sys: System, s: State, run: seq<Step>)
    decreases |run|
  {
    run == [] || (sys.enabled(s, run[0]) && Legal(sys, sys.apply(s, run[0]), run[1..]))
  }

  function Exec(sys: System, s: State, run: seq<Step>): State
    decreases |run|
  {
    if run == [] then s else Exec(sys, sys.apply(s, run[0]), run[1..])
  }

  // --------------------------------------------------------------------------
  // What is to be kept.
  // --------------------------------------------------------------------------

  // Read through the metafile, every stripe holds what clients wrote to it.
  predicate NothingLost(s: State) {
    |s.dfiles| == |s.expected| &&
    forall i :: 0 <= i < |s.dfiles| ==> s.dfiles[i] in s.store && s.store[s.dfiles[i]] == s.expected[i]
  }

  predicate PastGateOn(s: State, x: Handle) {
    exists i :: i in s.writers && s.writers[i] == Writer(x, PastGate)
  }

  // The state right after the source server picked `h` and closed its gate.
  predicate Selected(s: State) {
    && s.pc == GetAttr && s.peer == Waiting
    && s.h in s.dfiles && Distinct(s.dfiles) && NULL_HANDLE !in s.store
    && NothingLost(s)
    && GateClosed(s, s.h)
    && s.copy == NULL_HANDLE && s.sent == 0 && s.wire == []
    && !s.acked && !s.updateSent && !s.switched
    && forall i :: i in s.writers ==> s.writers[i].handle in s.store
  }

  ghost predicate LosesNothing(env: Env, s: State) {
    forall run :: Legal(Cluster(env), s, run) ==> NothingLost(Exec(Cluster(env), s, run))
  }

  // --------------------------------------------------------------------------
  // Safety: the invariant of every run in quiet surroundings.
  // --------------------------------------------------------------------------

  predicate Copying(pc: SourcePc) {
    pc in {AwaitResponse, PostFlow, Flowing, AwaitAck, SendTest, PrepareUpdate, AwaitUpdate}
  }

  predicate Basics(s: State) {
    && Distinct(s.dfiles) && NULL_HANDLE !in s.store
    && (forall i :: i in s.writers ==> s.writers[i].handle in s.store && s.writers[i].handle != s.copy)
    && (s.copy != NULL_HANDLE ==> s.copy in s.store)
    && (s.peer in {Waiting, Asked} ==> s.copy == NULL_HANDLE)
    && (s.peer in {Created, Receiving, Stored} ==> s.copy != NULL_HANDLE)
    && (s.acked ==> s.copy != NULL_HANDLE)
    && (s.peer == Waiting ==> s.pc in {GetAttr, SendRequest, Cleanup, Finalize, Idle})
    && (s.pc in {GetAttr, SendRequest} ==> s.peer == Waiting)
  }

  // Until the source server opens its gate again no client changes `h`.
  predicate Guarded(s: State) {
    && s.h in s.dfiles && s.copy !in s.dfiles
    && (s.pc != Idle ==> GateClosed(s, s.h) && !PastGateOn(s, s.h))
  }

  // Stored and travelling bytes together are a prefix of the datafile.
  predicate PrefixCopied(s: State)
    requires s.h in s.store && (s.copy != NULL_HANDLE ==> s.copy in s.store)
  {
    && s.size == |s.store[s.h]| && s.sent <= s.size
    && (s.peer != Waiting ==> s.asked == s.size)
    && (s.copy != NULL_HANDLE ==> s.store[s.copy] + s.wire == s.store[s.h][..s.sent])
    && (s.copy == NULL_HANDLE ==> s.sent == 0 && s.wire == [])
    && (s.copy != NULL_HANDLE && (s.peer == Stored || s.acked) ==> |s.store[s.copy]| == s.asked)
  }

  predicate Inv(s: State) {
    && Basics(s)
    && NothingLost(s)
    && (!s.switched ==>
        && Guarded(s)
        && s.h in s.store
        && (s.pc in {GetAttr, SendRequest} ==> s.copy == NULL_HANDLE && s.sent == 0 && s.wire == [])
        && (s.pc == SendRequest ==> s.size == |s.store[s.h]|)
        && (Copying(s.pc) ==> PrefixCopied(s))
        && (s.pc in {PostFlow, Flowing, AwaitAck, SendTest, PrepareUpdate, AwaitUpdate} ==>
              s.target == s.copy && s.copy != NULL_HANDLE)
        && (s.pc in {SendTest, PrepareUpdate, AwaitUpdate} ==> s.acked)
        && (s.acked ==> s.peer == Ended))
  }

  lemma EarlyStepKeepsInv(s: State, step: Step)
    requires Inv(s) && Enabled(QUIET, s, step)
    requires step in {ReadSize, Request, LearnTarget, BeginFlow, FlowSent, ReceiveAck}
    ensures Inv(Apply(QUIET, s, step))
  {
  }

  lemma UpdateStepKeepsInv(s: State, step: Step)
    requires Inv(s) && Enabled(QUIET, s, step) && step in {TestSent, UpdatePrepared, UpdateIgnored}
    ensures Inv(Apply(QUIET, s, step))
  {
  }

  lemma LateStepKeepsInv(s: State, step: Step)
    requires Inv(s) && Enabled(QUIET, s, step) && step in {OldKept, CleanedUp, Finalized, SourceFails}
    ensures Inv(Apply(QUIET, s, step))
  {
  }

  lemma FlowSendKeepsInv(s: State, n: nat)
    requires Inv(s) && Enabled(QUIET, s, FlowSend(n))
    ensures Inv(Apply(QUIET, s, FlowSend(n)))
  {
    var body := s.store[s.h];
    assert body[..s.sent] + body[s.sent..s.sent + n] == body[..s.sent + n];
  }

  lemma PeerCreatesKeepsInv(s: State, n: Handle)
    requires Inv(s) && Enabled(QUIET, s, PeerCreates(n))
    ensures Inv(Apply(QUIET, s, PeerCreates(n)))
  {
  }

  lemma PeerStepKeepsInv(s: State, step: Step)
    requires Inv(s) && Enabled(QUIET, s, step)
    requires step in {PeerAccepts, PeerStored, PeerAcks, PeerFails}
    ensures Inv(Apply(QUIET, s, step))
  {
  }

  lemma FlowStoreKeepsInv(s: State, n: nat)
    requires Inv(s) && Enabled(QUIET, s, FlowStore(n))
    ensures Inv(Apply(QUIET, s, FlowStore(n)))
  {
    assert s.store[s.copy] + s.wire == (s.store[s.copy] + s.wire[..n]) + s.wire[n..];
  }

  // The exchange publishes a complete copy: an acknowledgement was received,
  // it was sent only once every byte asked for had been stored, and no client
  // changed the datafile in between.
  lemma SwitchKeepsInv(s: State)
    requires Inv(s) && Enabled(QUIET, s, Switch)
    ensures Inv(Apply(QUIET, s, Switch))
  {
    var t := Apply(QUIET, s, Switch);
    var k :| 0 <= k < |s.dfiles| && s.dfiles[k] == s.h;
    ReplaceFirstAt(s.dfiles, s.h, s.copy, k);
    assert |s.store[s.copy]| == |s.store[s.h]|;
    assert s.store[s.copy] == s.store[s.h];
  }

  lemma ArriveKeepsInv(s: State, i: nat, x: Handle)
    requires Inv(s) && Enabled(QUIET, s, Arrive(i, x))
    ensures Inv(Apply(QUIET, s, Arrive(i, x)))
  {
  }

  lemma GateKeepsInv(s: State, i: nat)
    requires Inv(s) && Enabled(QUIET, s, Gate(i))
    ensures Inv(Apply(QUIET, s, Gate(i)))
  {
  }

  lemma FinishKeepsInv(s: State, i: nat)
    requires Inv(s) && Enabled(QUIET, s, Finish(i))
    ensures Inv(Apply(QUIET, s, Finish(i)))
  {
  }

  // While the gate is closed a client's write changes neither the datafile
  // that is being moved nor its copy.
  lemma WriteKeepsInv(s: State, i: nat, data: Content)
    requires Inv(s) && Enabled(QUIET, s, Write(i, data))
    ensures Inv(Apply(QUIET, s, Write(i, data)))
  {
    var x := s.writers[i].handle;
    var t := Apply(QUIET, s, Write(i, data));
    assert s.writers[i] == Writer(x, PastGate);
    assert PastGateOn(s, x);
    assert PastGateOn(t, s.h) == PastGateOn(s, s.h);
    assert NothingLost(t);
  }

  predicate ByPeer(step: Step) {
    step.PeerCreates? || step.FlowStore? || step in {PeerAccepts, PeerStored, PeerAcks, PeerFails}
  }

  predicate ByClient(step: Step) {
    step.Arrive? || step.Gate? || step.Write? || step.Finish?
  }

  lemma PeerKeepsInv(s: State, step: Step)
    requires Inv(s) && Enabled(QUIET, s, step) && ByPeer(step)
    ensures Inv(Apply(QUIET, s, step))
  {
    if step.FlowStore? {
      FlowStoreKeepsInv(s, step.n);
    } else if step.PeerCreates? {
      PeerCreatesKeepsInv(s, step.handle);
    } else {
      PeerStepKeepsInv(s, step);
    }
  }

  lemma ClientKeepsInv(s: State, step: Step)
    requires Inv(s) && Enabled(QUIET, s, step) && ByClient(step)
    ensures Inv(Apply(QUIET, s, step))
  {
    match step
    case Arrive(i, x) => ArriveKeepsInv(s, i, x);
    case Gate(i) => GateKeepsInv(s, i);
    case Write(i, data) => WriteKeepsInv(s, i, data);
    case Finish(i) => FinishKeepsInv(s, i);
  }

  lemma SourceKeepsInv(s: State, step: Step)
    requires Inv(s) && Enabled(QUIET, s, step) && !ByPeer(step) && !ByClient(step)
    ensures Inv(Apply(QUIET, s, step))
  {
    if step.FlowSend? {
      FlowSendKeepsInv(s, step.n);
    } else if step.Switch? {
      SwitchKeepsInv(s);
    } else if step in {TestSent, UpdatePrepared, UpdateIgnored} {
      UpdateStepKeepsInv(s, step);
    } else if step in {OldKept, CleanedUp, Finalized, SourceFails} {
      LateStepKeepsInv(s, step);
    } else {
      EarlyStepKeepsInv(s, step);
    }
  }

  lemma StepKeepsInv(s: State, step: Step)
    requires Inv(s) && Enabled(QUIET, s, step)
    ensures Inv(Apply(QUIET, s, step))
  {
    if ByPeer(step) {
      PeerKeepsInv(s, step);
    } else if ByClient(step) {
      ClientKeepsInv(s, step);
    } else {
      SourceKeepsInv(s, step);
    }
  }

  lemma {:induction false} RunKeepsInv(s: State, run: seq<Step>)
    requires Inv(s) && Legal(Cluster(QUIET), s, run)
    ensures Inv(Exec(Cluster(QUIET), s, run))
    decreases |run|
  {
    if run == [] {
    } else {
      StepKeepsInv(s, run[0]);
      RunKeepsInv(Apply(QUIET, s, run[0]), run[1..]);
    }
  }

  // In quiet surroundings, if no write on `h` had passed the gate when `h` was
  // picked, then in every state of every run each stripe of the file holds
  // what clients wrote, whichever steps fail and up to the exchange itself.
  lemma Safety(s: State)
    requires Selected(s) && !PastGateOn(s, s.h)
    ensures LosesNothing(QUIET, s)
  {
    assert Inv(s);
    forall run | Legal(Cluster(QUIET), s, run)
      ensures NothingLost(Exec(Cluster(QUIET), s, run))
    {
      RunKeepsInv(s, run);
    }
  }

  // --------------------------------------------------------------------------
  // The converse: how a write is lost.
  // --------------------------------------------------------------------------

  lemma {:induction false} Concatenate(sys: System, s: State, a: seq<Step>, b: seq<Step>)
    requires Legal(sys, s, a) && Legal(sys, Exec(sys, s, a), b)
    ensures Legal(sys, s, a + b) && Exec(sys, s, a + b) == Exec(sys, Exec(sys, s, a), b)
    decreases |a|
  {
    if a == [] {
      assert a + b == b;
    } else {
      Concatenate(sys, sys.apply(s, a[0]), a[1..], b);
      assert (a + b)[1..] == a[1..] + b;
    }
  }

  // Legality and outcome of a run, one step at a time.
  lemma One(env: Env, s: State, step: Step, rest: seq<Step>)
    requires Enabled(env, s, step) && Legal(Cluster(env), Apply(env, s, step), rest)
    ensures Legal(Cluster(env), s, [step] + rest)
    ensures Exec(Cluster(env), s, [step] + rest) == Exec(Cluster(env), Apply(env, s, step), rest)
  {
    assert ([step] + rest)[1..] == rest;
  }

  // One more step at the end of a run.
  lemma Extend(env: Env, s: State, run: seq<Step>, step: Step)
    requires Legal(Cluster(env), s, run) && Enabled(env, Exec(Cluster(env), s, run), step)
    ensures Legal(Cluster(env), s, run + [step])
    ensures Exec(Cluster(env), s, run + [step]) == Apply(env, Exec(Cluster(env), s, run), step)
  {
    var t := Exec(Cluster(env), s, run);
    One(env, t, step, []);
    assert [step] + [] == [step];
    Concatenate(Cluster(env), s, run, [step]);
  }

  // A state from which a copy can start, whatever the gate says.
  predicate Ready(s: State) {
    && s.pc == GetAttr && s.peer == Waiting && s.h in s.store && s.h in s.dfiles
    && Distinct(s.dfiles) && |s.dfiles| == |s.expected|
    && s.sent == 0 && s.wire == [] && !s.switched
  }

  function Copied(s: State, n: Handle): State
    requires s.h in s.store
  {
    var body := s.store[s.h];
    s.(pc := AwaitUpdate, size := |body|, asked := |body|, peer := Ended, copy := n, target := n,
       store := s.store[n := body], sent := |body|, acked := true, updateSent := true)
  }

  // The states on the way: the request is out, the peer has answered, every
  // byte has been sent.
  function Requested(s: State): State
    requires s.h in s.store
  {
    s.(pc := AwaitResponse, size := |s.store[s.h]|, asked := |s.store[s.h]|, peer := Asked)
  }

  function Answered(s: State, n: Handle): State
    requires s.h in s.store
  {
    Requested(s).(pc := PostFlow, peer := Receiving, copy := n, target := n, store := s.store[n := []])
  }

  function Streamed(s: State, n: Handle): State
    requires s.h in s.store
  {
    Answered(s, n).(pc := Flowing, sent := |s.store[s.h]|, wire := s.store[s.h])
  }

  function Received(s: State, n: Handle): State
    requires s.h in s.store
  {
    Streamed(s, n).(pc := AwaitAck, peer := Stored, wire := [], store := s.store[n := s.store[s.h]])
  }

  lemma RequestRun(env: Env, s: State)
    requires Ready(s)
    ensures var run := [ReadSize, Request];
            Legal(Cluster(env), s, run) && Exec(Cluster(env), s, run) == Requested(s)
  {
    var s1 := Apply(env, s, ReadSize);
    One(env, s1, Request, []);
    One(env, s, ReadSize, [Request]);
  }

  lemma AnswerRun(env: Env, s: State, n: Handle)
    requires Ready(s) && n != NULL_HANDLE && n !in s.store
    ensures var run := [PeerCreates(n), PeerAccepts, LearnTarget];
            Legal(Cluster(env), Requested(s), run) && Exec(Cluster(env), Requested(s), run) == Answered(s, n)
  {
    var s0 := Requested(s);
    var s1 := Apply(env, s0, PeerCreates(n));
    var s2 := Apply(env, s1, PeerAccepts);
    One(env, s2, LearnTarget, []);
    One(env, s1, PeerAccepts, [LearnTarget]);
    One(env, s0, PeerCreates(n), [PeerAccepts, LearnTarget]);
  }

  lemma StreamRun(env: Env, s: State, n: Handle)
    requires Ready(s) && n != NULL_HANDLE && n !in s.store
    ensures var run := [BeginFlow, FlowSend(|s.store[s.h]|)];
            Legal(Cluster(env), Answered(s, n), run) && Exec(Cluster(env), Answered(s, n), run) == Streamed(s, n)
  {
    var size := |s.store[s.h]|;
    var s0 := Answered(s, n);
    var s1 := Apply(env, s0, BeginFlow);
    assert s1.wire + s1.store[s1.h][0..size] == s.store[s.h];
    One(env, s1, FlowSend(size), []);
    One(env, s0, BeginFlow, [FlowSend(size)]);
  }

  lemma ReceiveRun(env: Env, s: State, n: Handle)
    requires Ready(s) && n != NULL_HANDLE && n !in s.store
    ensures var run := [FlowStore(|s.store[s.h]|), FlowSent, PeerStored];
            Legal(Cluster(env), Streamed(s, n), run) && Exec(Cluster(env), Streamed(s, n), run) == Received(s, n)
  {
    var body := s.store[s.h];
    var size := |body|;
    var s0 := Streamed(s, n);
    assert [] + body[..size] == body && body[size..] == [];
    var s1 := Apply(env, s0, FlowStore(size));
    assert s1.store == s.store[n := body] && s1.wire == [];
    var s2 := Apply(env, s1, FlowSent);
    One(env, s2, PeerStored, []);
    One(env, s1, FlowSent, [PeerStored]);
    One(env, s0, FlowStore(size), [FlowSent, PeerStored]);
  }

  lemma AckRun(env: Env, s: State)
    requires s.pc == AwaitAck && s.peer == Stored && !s.switched && |s.dfiles| == |s.expected|
    ensures var run := [PeerAcks, ReceiveAck];
            Legal(Cluster(env), s, run) && Exec(Cluster(env), s, run) == s.(pc := SendTest, peer := Ended, acked := true)
  {
    var s1 := Apply(env, s, PeerAcks);
    One(env, s1, ReceiveAck, []);
    One(env, s, PeerAcks, [ReceiveAck]);
  }

  lemma UpdateRun(env: Env, s: State)
    requires s.pc == SendTest && !s.switched && |s.dfiles| == |s.expected|
    ensures var run := [TestSent, UpdatePrepared];
            Legal(Cluster(env), s, run) && Exec(Cluster(env), s, run) == s.(pc := AwaitUpdate, updateSent := true)
  {
    var s1 := Apply(env, s, TestSent);
    One(env, s1, UpdatePrepared, []);
    One(env, s, TestSent, [UpdatePrepared]);
  }

  lemma PublishRun(env: Env, s: State)
    requires s.pc == AwaitAck && s.peer == Stored && !s.switched && |s.dfiles| == |s.expected|
    ensures var run := [PeerAcks, ReceiveAck] + [TestSent, UpdatePrepared];
            Legal(Cluster(env), s, run) &&
            Exec(Cluster(env), s, run) == s.(pc := AwaitUpdate, peer := Ended, acked := true, updateSent := true)
  {
    AckRun(env, s);
    UpdateRun(env, s.(pc := SendTest, peer := Ended, acked := true));
    Concatenate(Cluster(env), s, [PeerAcks, ReceiveAck], [TestSent, UpdatePrepared]);
  }

  // The undisturbed copy, from reading the size to sending the setattr.
  lemma CopyRun(env: Env, s: State, n: Handle) returns (run: seq<Step>)
    requires Ready(s) && n != NULL_HANDLE && n !in s.store
    ensures Legal(Cluster(env), s, run) && Exec(Cluster(env), s, run) == Copied(s, n)
  {
    var sys, size := Cluster(env), |s.store[s.h]|;
    RequestRun(env, s);
    AnswerRun(env, s, n);
    run := [ReadSize, Request] + [PeerCreates(n), PeerAccepts, LearnTarget];
    Concatenate(sys, s, [ReadSize, Request], [PeerCreates(n), PeerAccepts, LearnTarget]);
    StreamRun(env, s, n);
    Concatenate(sys, s, run, [BeginFlow, FlowSend(size)]);
    run := run + [BeginFlow, FlowSend(size)];
    ReceiveRun(env, s, n);
    Concatenate(sys, s, run, [FlowStore(size), FlowSent, PeerStored]);
    run := run + [FlowStore(size), FlowSent, PeerStored];
    PublishRun(env, Received(s, n));
    Concatenate(sys, s, run, [PeerAcks, ReceiveAck] + [TestSent, UpdatePrepared]);
    run := run + ([PeerAcks, ReceiveAck] + [TestSent, UpdatePrepared]);
  }

  // What the migration is for: undisturbed, it ends with the metafile naming a
  // copy on the other server in the place of the old datafile.
  lemma Completes(env: Env, s: State, k: nat, n: Handle) returns (run: seq<Step>)
    requires Selected(s) && k < |s.dfiles| && s.dfiles[k] == s.h && n != NULL_HANDLE && n !in s.store
    ensures Legal(Cluster(env), s, run)
    ensures var t := Exec(Cluster(env), s, run);
            && t.dfiles == s.dfiles[k := n] && t.store == s.store[n := s.store[s.h]] && t.expected == s.expected
  {
    run := CopyRun(env, s, n);
    Extend(env, s, run, Switch);
    run := run + [Switch];
    ReplaceFirstAt(s.dfiles, s.h, n, k);
  }

  // A write that lands on the old datafile after it was copied disappears
  // with the exchange of the handle.
  lemma OverwriteThenSwitch(env: Env, s: State, i: nat) returns (run: seq<Step>)
    requires s.h in s.dfiles && s.h in s.store && Distinct(s.dfiles) && |s.dfiles| == |s.expected|
    requires !s.switched && s.updateSent && (s.pc == AwaitUpdate || env.late)
    requires s.target in s.store && s.target != s.h && s.store[s.target] == s.store[s.h]
    requires i in s.writers && s.writers[i] == Writer(s.h, PastGate)
    ensures Legal(Cluster(env), s, run) && !NothingLost(Exec(Cluster(env), s, run))
  {
    var data := s.store[s.h] + [0];
    Extend(env, s, [], Write(i, data));
    run := [Write(i, data)];
    assert [] + run == run;
    Extend(env, s, run, Switch);
    run := run + [Switch];
    var k :| 0 <= k < |s.dfiles| && s.dfiles[k] == s.h;
    ReplaceFirstAt(s.dfiles, s.h, s.target, k);
    var t := Exec(Cluster(env), s, run);
    assert t.dfiles[k] == s.target && t.store[s.target] == s.store[s.h] && t.expected[k] == data;
    assert |s.store[s.h]| != |data|;
  }

  lemma LostByWriterPastGate(env: Env, s: State, i: nat) returns (run: seq<Step>)
    requires Ready(s) && i in s.writers && s.writers[i] == Writer(s.h, PastGate)
    ensures Legal(Cluster(env), s, run) && !NothingLost(Exec(Cluster(env), s, run))
  {
    var n := F.Unused(s.store.Keys);
    var a := CopyRun(env, s, n);
    var b := OverwriteThenSwitch(env, Exec(Cluster(env), s, a), i);
    Concatenate(Cluster(env), s, a, b);
    run := a + b;
  }

  lemma LostUngated(env: Env, s: State) returns (run: seq<Step>)
    requires Selected(s) && env.ungated
    ensures Legal(Cluster(env), s, run) && !NothingLost(Exec(Cluster(env), s, run))
  {
    var i := F.Unused(s.writers.Keys);
    Extend(env, s, [], ArriveUngated(i, s.h));
    var a := [ArriveUngated(i, s.h)];
    assert [] + a == a;
    var b := LostByWriterPastGate(env, Exec(Cluster(env), s, a), i);
    Concatenate(Cluster(env), s, a, b);
    run := a + b;
  }

  // An incoming migration takes over the server's two globals, so the gate no
  // longer guards `h`.
  lemma LostByIncoming(env: Env, s: State) returns (run: seq<Step>)
    requires Selected(s) && env.incoming
    ensures Legal(Cluster(env), s, run) && !NothingLost(Exec(Cluster(env), s, run))
  {
    var i := F.Unused(s.writers.Keys);
    var m := F.Unused(s.store.Keys);
    Extend(env, s, [], Arrive(i, s.h));
    var a := [Arrive(i, s.h)];
    assert [] + a == a;
    Extend(env, s, a, IncomingAccepted(m));
    a := a + [IncomingAccepted(m)];
    Extend(env, s, a, Gate(i));
    a := a + [Gate(i)];
    var b := LostByWriterPastGate(env, Exec(Cluster(env), s, a), i);
    Concatenate(Cluster(env), s, a, b);
    run := a + b;
  }

  // The source gives up waiting and opens its gate while the setattr is still
  // under way.
  lemma LostByLateUpdate(env: Env, s: State) returns (run: seq<Step>)
    requires Selected(s) && env.late
    ensures Legal(Cluster(env), s, run) && !NothingLost(Exec(Cluster(env), s, run))
  {
    var n := F.Unused(s.store.Keys);
    var i := F.Unused(s.writers.Keys);
    var a := CopyRun(env, s, n);
    Extend(env, s, a, SourceFails);
    a := a + [SourceFails];
    Extend(env, s, a, CleanedUp);
    a := a + [CleanedUp];
    Extend(env, s, a, Finalized);
    a := a + [Finalized];
    Extend(env, s, a, Arrive(i, s.h));
    a := a + [Arrive(i, s.h)];
    Extend(env, s, a, Gate(i));
    a := a + [Gate(i)];
    var b := OverwriteThenSwitch(env, Exec(Cluster(env), s, a), i);
    Concatenate(Cluster(env), s, a, b);
    run := a + b;
  }

  // --------------------------------------------------------------------------
  // What the gate lets through, and that it opens again.
  // --------------------------------------------------------------------------

  // The gate stops nothing but I/O on `h`: a client that turns up with a write
  // on any other datafile gets it done.
  lemma OthersGoOn(env: Env, s: State, x: Handle, data: Content) returns (run: seq<Step>)
    requires Selected(s) && x in s.store && x != s.h
    ensures Legal(Cluster(env), s, run)
    ensures var t := Exec(Cluster(env), s, run);
            && t.store == s.store[x := data]
            && t.dfiles == s.dfiles && t.expected == Expect(s.dfiles, s.expected, x, data)
  {
    var i := F.Unused(s.writers.Keys);
    Extend(env, s, [], Arrive(i, x));
    run := [Arrive(i, x)];
    assert [] + run == run;
    Extend(env, s, run, Gate(i));
    run := run + [Gate(i)];
    Extend(env, s, run, Write(i, data));
    run := run + [Write(i, data)];
  }

  // And a write on `h` itself is turned away.
  lemma MovedIsRefused(env: Env, s: State) returns (run: seq<Step>, i: nat)
    requires Selected(s)
    ensures Legal(Cluster(env), s, run)
    ensures Exec(Cluster(env), s, run) == s.(writers := s.writers[i := Writer(s.h, Refused)])
  {
    i := F.Unused(s.writers.Keys);
    Extend(env, s, [], Arrive(i, s.h));
    run := [Arrive(i, s.h)];
    assert [] + run == run;
    Extend(env, s, run, Gate(i));
    run := run + [Gate(i)];
    var t := Exec(Cluster(env), s, run);
    assert t.writers == s.writers[i := Writer(s.h, Refused)];
  }

  predicate GateExact(s: State) {
    s.migHandle == s.h && (s.migState <==> s.pc != Idle)
  }

  lemma PeerKeepsGate(s: State, step: Step)
    requires GateExact(s) && Enabled(QUIET, s, step) && ByPeer(step)
    ensures GateExact(Apply(QUIET, s, step)) && Apply(QUIET, s, step).h == s.h
  {
  }

  lemma ClientKeepsGate(s: State, step: Step)
    requires GateExact(s) && Enabled(QUIET, s, step) && ByClient(step)
    ensures GateExact(Apply(QUIET, s, step)) && Apply(QUIET, s, step).h == s.h
  {
  }

  lemma SourceKeepsGate(s: State, step: Step)
    requires GateExact(s) && Enabled(QUIET, s, step) && !ByPeer(step) && !ByClient(step)
    ensures GateExact(Apply(QUIET, s, step)) && Apply(QUIET, s, step).h == s.h
  {
  }

  lemma StepKeepsGate(s: State, step: Step)
    requires GateExact(s) && Enabled(QUIET, s, step)
    ensures GateExact(Apply(QUIET, s, step)) && Apply(QUIET, s, step).h == s.h
  {
    if ByPeer(step) {
      PeerKeepsGate(s, step);
    } else if ByClient(step) {
      ClientKeepsGate(s, step);
    } else {
      SourceKeepsGate(s, step);
    }
  }

  lemma {:induction false} RunKeepsGate(s: State, run: seq<Step>)
    requires GateExact(s) && Legal(Cluster(QUIET), s, run)
    ensures GateExact(Exec(Cluster(QUIET), s, run)) && Exec(Cluster(QUIET), s, run).h == s.h
    decreases |run|
  {
    if run == [] {
    } else {
      StepKeepsGate(s, run[0]);
      RunKeepsGate(Apply(QUIET, s, run[0]), run[1..]);
    }
  }

  // In every state of every run in quiet surroundings the gate is closed on
  // `h`, and on nothing else, until the source has finished; then it is open.
  lemma GateClosedExactlyMeanwhile(s: State, run: seq<Step>, x: Handle)
    requires Selected(s) && Legal(Cluster(QUIET), s, run)
    ensures var t := Exec(Cluster(QUIET), s, run);
            && (t.pc == Idle ==> !t.migState)
            && (GateClosed(t, x) <==> x == s.h && t.pc != Idle)
  {
    RunKeepsGate(s, run);
  }

  // The source's last two states, and giving up before them.
  lemma CleanUpRun(env: Env, s: State)
    requires s.pc == Cleanup && !s.switched && |s.dfiles| == |s.expected|
    ensures var run := [CleanedUp, Finalized];
            Legal(Cluster(env), s, run) && Exec(Cluster(env), s, run) == s.(pc := Idle, migState := false)
  {
    var s1 := Apply(env, s, CleanedUp);
    One(env, s1, Finalized, []);
    One(env, s, CleanedUp, [Finalized]);
  }

  lemma GiveUpRun(env: Env, s: State)
    requires SourceActive(s.pc) && !s.switched && |s.dfiles| == |s.expected|
    ensures var run := [SourceFails] + [CleanedUp, Finalized];
            Legal(Cluster(env), s, run) && Exec(Cluster(env), s, run) == s.(pc := Idle, migState := false)
  {
    CleanUpRun(env, s.(pc := Cleanup));
    One(env, s, SourceFails, [CleanedUp, Finalized]);
  }

  lemma FinishRun(s: State) returns (run: seq<Step>)
    requires !s.switched && |s.dfiles| == |s.expected|
    ensures Legal(Cluster(QUIET), s, run) && Exec(Cluster(QUIET), s, run).pc == Idle
  {
    if s.pc == Idle {
      run := [];
    } else if s.pc == Finalize {
      One(QUIET, s, Finalized, []);
      run := [Finalized] + [];
    } else if s.pc == Cleanup {
      CleanUpRun(QUIET, s);
      run := [CleanedUp, Finalized];
    } else {
      GiveUpRun(QUIET, s);
      run := [SourceFails] + [CleanedUp, Finalized];
    }
  }

  // Wherever it stands, the source can still finish and open its gate, with
  // every write kept, unless the exchange has ended the run.
  lemma GateReopens(s: State, run: seq<Step>) returns (more: seq<Step>)
    requires Selected(s) && !PastGateOn(s, s.h)
    requires Legal(Cluster(QUIET), s, run) && !Exec(Cluster(QUIET), s, run).switched
    ensures Legal(Cluster(QUIET), s, run + more)
    ensures var t := Exec(Cluster(QUIET), s, run + more); t.pc == Idle && !t.migState && NothingLost(t)
  {
    RunKeepsInv(s, run);
    more := FinishRun(Exec(Cluster(QUIET), s, run));
    Concatenate(Cluster(QUIET), s, run, more);
    GateClosedExactlyMeanwhile(s, run + more, s.h);
    Safety(s);
  }

  // Exactly when a migration loses no client write.
  lemma NoWriteLostIff(env: Env, s: State)
    requires Selected(s)
    ensures LosesNothing(env, s) <==> env == QUIET && !PastGateOn(s, s.h)
  {
    if env.ungated {
      var run := LostUngated(env, s);
    } else if env.incoming {
      var run := LostByIncoming(env, s);
    } else if env.late {
      var run := LostByLateUpdate(env, s);
    } else if PastGateOn(s, s.h) {
      var i :| i in s.writers && s.writers[i] == Writer(s.h, PastGate);
      var run := LostByWriterPastGate(env, s, i);
    } else {
      Safety(s);
    }
  }
}
