// One I/O request from its prelude to its end: which acknowledgements and flows
// it posts, when it leaves the scheduler, and what becomes of its buffers.

module IoMachine {

  type ErrorCode = x: int | x < 0 witness -1

  datatype Option<T> = None | Some(value: T)
  datatype IoType = Read | Write | Unknown

  const EINVAL: ErrorCode := -15
  const ENOMEM: ErrorCode := -8

  // Encoding fails without a buffer, or after filling one that was too small.
  datatype Encoding = Encoded(size: nat) | NoBuffer | TooLong(size: nat)

  // How every step of the surroundings ends.
  datatype Input = Input(
    ioType: IoType,
    prelude: Option<ErrorCode>,
    migrating: bool,                    // the gate is closed on this handle
    ack: Encoding, ackSent: Option<ErrorCode>,
    flowAllocated: bool, flow: Option<ErrorCode>,
    completion: Encoding, completionSent: Option<ErrorCode>,
    released: Option<ErrorCode>)

  predicate Sane(x: Input) {
    && (!x.ack.NoBuffer? ==> x.ack.size > 0) && (!x.completion.NoBuffer? ==> x.completion.size > 0)
  }

  datatype State =
    Prelude | MigrationTest | SendPositiveAck | SendNegativeAck | StartFlow | SendCompletionAck | Release | Cleanup | Terminated

  // What the outside sees of a request.
  datatype Event = PositiveAck | NegativeAck(code: int) | Flow | CompletionAck | Released

  // --------------------------------------------------------------------------
  // The events of a run, by what went wrong first.
  // --------------------------------------------------------------------------

  predicate Accepted(x: Input) { x.prelude.None? && !x.migrating }

  predicate AckPosted(x: Input) { x.ack.Encoded? }

  predicate FlowPosted(x: Input) {
    Accepted(x) && AckPosted(x) && x.ackSent.None? && x.flowAllocated && x.ioType != Unknown
  }

  predicate CompletionPosted(x: Input) {
    FlowPosted(x) && x.flow.None? && x.ioType == Write && x.completion.Encoded?
  }

  function Refusal(x: Input): int {
    if x.prelude.Some? then x.prelude.value else -1
  }

  function Events(x: Input): seq<Event> {
    (if !AckPosted(x) then [] else if Accepted(x) then [PositiveAck] else [NegativeAck(Refusal(x))])
    + (if FlowPosted(x) then [Flow] else [])
    + (if CompletionPosted(x) then [CompletionAck] else [])
    + [Released]
  }

  // Data moves only after a positive acknowledgement, a completion is announced
  // only after the data, and every run leaves the scheduler once, last of all.
  // Which events there are is read off the input's fields.
  lemma EventOrder(x: Input)
    ensures PositiveAck in Events(x) <==> x.prelude.None? && !x.migrating && x.ack.Encoded?
    ensures forall code ::
      (NegativeAck(code) in Events(x)
       <==> x.ack.Encoded? && (x.prelude == Some(code) || (x.prelude.None? && x.migrating && code == -1)))
    ensures Flow in Events(x)
      <==> x.prelude.None? && !x.migrating && x.ack.Encoded? && x.ackSent.None? && x.flowAllocated
           && (x.ioType == Read || x.ioType == Write)
    ensures CompletionAck in Events(x)
      <==> x.prelude.None? && !x.migrating && x.ack.Encoded? && x.ackSent.None? && x.flowAllocated
           && x.ioType == Write && x.flow.None? && x.completion.Encoded?
    ensures Flow in Events(x) ==> Events(x)[0] == PositiveAck && Events(x)[1] == Flow
    ensures CompletionAck in Events(x) ==> Events(x) == [PositiveAck, Flow, CompletionAck, Released]
    ensures forall i :: 0 <= i < |Events(x)| ==> (Events(x)[i] == Released <==> i == |Events(x)| - 1)
  {
    assert CompletionPosted(x) ==> Events(x) == [PositiveAck, Flow, CompletionAck, Released];
    assert FlowPosted(x) && !CompletionPosted(x) ==> Events(x) == [PositiveAck, Flow, Released];
    assert !FlowPosted(x) && AckPosted(x) && Accepted(x) ==> Events(x) == [PositiveAck, Released];
    assert AckPosted(x) && !Accepted(x) ==> Events(x) == [NegativeAck(Refusal(x)), Released];
    assert !AckPosted(x) ==> Events(x) == [Released];
  }

  // --------------------------------------------------------------------------
  // The machine.
  // --------------------------------------------------------------------------

  class Machine {
    const x: Input
    var state: State
    var error: int
    var totalSize: nat        // size field of the encoded response
    var live: nat             // encoded buffers allocated and not released
    var flows: nat            // flow descriptors allocated and not freed
    var hasFlow: bool         // the flow pointer is set
    var log: seq<Event>

    // The size field is nonzero exactly when there is a buffer to release.
    ghost predicate Buffers()
      reads this`totalSize, this`live, this`flows, this`hasFlow
    {
      live == (if totalSize != 0 then 1 else 0) && flows == (if hasFlow then 1 else 0)
    }

    ghost predicate Inv()
      reads this
    {
      && Sane(x) && Buffers()
      && match state {
           case Prelude => log == [] && error == 0 && totalSize == 0 && !hasFlow
           case MigrationTest => log == [] && error == 0 && x.prelude.None? && totalSize == 0 && !hasFlow
           case SendPositiveAck => log == [] && Accepted(x) && error == 0 && totalSize == 0 && !hasFlow
           case SendNegativeAck => log == [] && !Accepted(x) && error == Refusal(x) && totalSize == 0 && !hasFlow
           case StartFlow => log == [PositiveAck] && Accepted(x) && AckPosted(x) && x.ackSent.None? && totalSize != 0 && !hasFlow
           case SendCompletionAck => log == [PositiveAck, Flow] && FlowPosted(x) && x.flow.None? && error == 0 && totalSize != 0
           case Release => log + [Released] == Events(x)
           case Cleanup => log == Events(x)
           case Terminated => log == Events(x) && live == 0 && flows == 0
         }
    }

    constructor (x: Input)
      requires Sane(x)
      ensures Inv() && this.x == x && state == Prelude
    {
      this.x := x;
      state, error, totalSize, live, flows, hasFlow, log := Prelude, 0, 0, 0, 0, false, [];
    }

    // Fills the encoded response; the size field is set only if a buffer was.
    method Encode(e: Encoding) returns (ok: bool)
      requires Buffers() && totalSize == 0 && (!e.NoBuffer? ==> e.size > 0)
      modifies this`totalSize, this`live
      ensures Buffers() && (ok <==> e.Encoded?) && (totalSize != 0 <==> !e.NoBuffer?)
    {
      if !e.NoBuffer? {
        live := live + 1;
        totalSize := e.size;
      }
      ok := e.Encoded?;
    }

    method FinishPrelude()
      requires Inv() && state == Prelude
      modifies this
      ensures Inv() && state in {MigrationTest, SendNegativeAck}
    {
      if x.prelude.Some? {
        error := x.prelude.value;
        state := SendNegativeAck;
      } else {
        state := MigrationTest;
      }
    }

    // The gate of the migration: no I/O on the datafile that is being moved.
    method TestMigration()
      requires Inv() && state == MigrationTest
      modifies this
      ensures Inv() && state == if x.migrating then SendNegativeAck else SendPositiveAck
    {
      if x.migrating {
        error := -1;
        state := SendNegativeAck;
      } else {
        state := SendPositiveAck;
      }
    }

    method SendAck()
      requires Inv() && state in {SendPositiveAck, SendNegativeAck}
      modifies this
      ensures Inv() && state in {StartFlow, Release}
    {
      var positive := state == SendPositiveAck;
      var status := error;
      var ok := Encode(x.ack);
      if !ok {
        error := ENOMEM;
        state := Release;
        return;
      }
      log := log + [if positive then PositiveAck else NegativeAck(status)];
      if x.ackSent.Some? {
        error := x.ackSent.value;
        state := Release;
      } else {
        error := 0;
        state := if positive then StartFlow else Release;
      }
    }

    method StartTransfer()
      requires Inv() && state == StartFlow
      modifies this
      ensures Inv() && state in {SendCompletionAck, Release}
    {
      if !x.flowAllocated {
        error := ENOMEM;
        state := Release;
        return;
      }
      hasFlow, flows := true, flows + 1;
      if x.ioType == Unknown {
        error := EINVAL;
        state := Release;
        return;
      }
      log := log + [Flow];
      if x.flow.Some? {
        error := x.flow.value;
        state := Release;
      } else {
        error := 0;
        state := SendCompletionAck;
      }
    }

    // Only a write announces its end; the first response is let go before the
    // second one is encoded in its place.
    method SendCompletion()
      requires Inv() && state == SendCompletionAck
      modifies this
      ensures Inv() && state == Release
    {
      if x.ioType == Read {
        error := 0;
        state := Release;
        return;
      }
      live := live - 1;
      totalSize := 0;
      var ok := Encode(x.completion);
      if !ok {
        error := ENOMEM;
      } else {
        log := log + [CompletionAck];
        error := if x.completionSent.Some? then x.completionSent.value else 0;
      }
      state := Release;
    }

    method LeaveScheduler()
      requires Inv() && state == Release
      modifies this
      ensures Inv() && state == Cleanup
    {
      log := log + [Released];
      error := if x.released.Some? then x.released.value else 0;
      state := Cleanup;
    }

    method CleanUp()
      requires Inv() && state == Cleanup
      modifies this
      ensures Inv() && state == Terminated
    {
      if hasFlow {
        flows := flows - 1;
      }
      hasFlow := false;
      if totalSize != 0 {
        live := live - 1;
      }
      totalSize := 0;
      state := Terminated;
    }

    method Run()
      requires Inv() && state == Prelude
      modifies this
      ensures log == Events(x) && live == 0 && flows == 0
    {
      FinishPrelude();
      if state == MigrationTest {
        TestMigration();
      }
      SendAck();
      if state == StartFlow {
        StartTransfer();
      }
      if state == SendCompletionAck {
        SendCompletion();
      }
      LeaveScheduler();
      CleanUp();
    }
  }

  method ServeIo(x: Input) returns (log: seq<Event>, leaked: nat)
    requires Sane(x)
    ensures log == Events(x) && leaked == 0
    ensures PositiveAck in log <==> x.prelude.None? && !x.migrating && x.ack.Encoded?
    ensures forall code ::
      (NegativeAck(code) in log
       <==> x.ack.Encoded? && (x.prelude == Some(code) || (x.prelude.None? && x.migrating && code == -1)))
    ensures Flow in log
      <==> x.prelude.None? && !x.migrating && x.ack.Encoded? && x.ackSent.None? && x.flowAllocated
           && (x.ioType == Read || x.ioType == Write)
    ensures CompletionAck in log
      <==> x.prelude.None? && !x.migrating && x.ack.Encoded? && x.ackSent.None? && x.flowAllocated
           && x.ioType == Write && x.flow.None? && x.completion.Encoded?
    ensures Flow in log ==> log[0] == PositiveAck && log[1] == Flow
    ensures CompletionAck in log ==> log == [PositiveAck, Flow, CompletionAck, Released]
    ensures forall i :: 0 <= i < |log| ==> (log[i] == Released <==> i == |log| - 1)
    ensures log != []
  {
    var m := new Machine(x);
    m.Run();
    log, leaked := m.log, m.live + m.flows;
    EventOrder(x);
  }
}
