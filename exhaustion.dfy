/** When the emitted loop ends on its own.  The receive's `else { break; }`
    fires only once every `Sender` of the channel is gone.  As written, the
    block keeps the `sender` it created next to the receiver alive for the
    whole loop (only clones of it move into the forwarders), so the receive
    never sees the end of the channel: once the forwarders are done the loop
    blocks forever instead of breaking.  The corrected loop drops that sender
    before looping, so it ends exactly when its sources are exhausted.
    `tasks` holds the state of each spawned forwarder, one per forwarder of
    the plan, once `incoming` has been delivered. */
module Exhaustion {
  import opened Syntax
  import opened Naming
  import opened Partition
  import opened Expansion
  import opened Forwarding
  import opened Driver
  import opened DriverProperties

  /** The loop as emitted: its own `sender` is still held. */
  method RunLoopAsWritten<T>(e: Expansion, incoming: seq<Message<T>>, outcomes: seq<Control>, tasks: seq<TaskState>)
    returns (trace: seq<Event<T>>, end: LoopEnd)
    requires Delivery(e, incoming, outcomes) && |tasks| == |e.forwarders|
    ensures Run(trace, end) == LoopFrom(e, incoming, outcomes, 0, AllReturned(tasks), false)
    ensures end != Exhausted && Closed !in trace
    ensures Break !in outcomes ==> end == Waiting
  {
    trace, end := RunLoop(e, incoming, outcomes, AllReturned(tasks), false);
    LoopEnding(e, incoming, outcomes, 0, AllReturned(tasks), false);
    ClosedIffExhausted(e, incoming, outcomes, 0, AllReturned(tasks), false);
    assert outcomes[0..] == outcomes;
  }

  /** The loop with the block's own `sender` dropped before `loop`: it ends
      by exhaustion exactly when every forwarder has returned and no arm
      breaks, and it blocks for good only while some forwarder still runs. */
  method RunLoopCorrected<T>(e: Expansion, incoming: seq<Message<T>>, outcomes: seq<Control>, tasks: seq<TaskState>)
    returns (trace: seq<Event<T>>, end: LoopEnd)
    requires Delivery(e, incoming, outcomes) && |tasks| == |e.forwarders|
    ensures Run(trace, end) == LoopFrom(e, incoming, outcomes, 0, AllReturned(tasks), true)
    ensures end == Exhausted <==> AllReturned(tasks) && Break !in outcomes
    ensures end == Broke <==> Break in outcomes
    ensures end == Waiting <==> (exists i :: 0 <= i < |tasks| && tasks[i] == Running) && Break !in outcomes
    ensures Closed in trace <==> end == Exhausted
  {
    trace, end := RunLoop(e, incoming, outcomes, AllReturned(tasks), true);
    LoopEnding(e, incoming, outcomes, 0, AllReturned(tasks), true);
    ClosedIffExhausted(e, incoming, outcomes, 0, AllReturned(tasks), true);
    assert outcomes[0..] == outcomes;
  }

  /** `select_loop! { S numbers => |n| body }` over an empty stream: the
      forwarder sends nothing and returns, yet the loop as written blocks in
      its first receive, while the corrected loop breaks at once. */
  method EmptyStreamNeverEnds() returns (asWritten: Run<int>, corrected: Run<int>)
    ensures asWritten == Run([], Waiting)
    ensures corrected == Run([Closed], Exhausted)
  {
    var bs := [Sourced(SourcedBranch(Stream, PathExpr("numbers"), "n", GroupExpr(0)))];
    assert bs[1..] == [];
    var split := SplitOf(bs);
    assert split.before == [] && split.after == [] && |split.sourced| == 1;
    var e := Expand(split);
    var sent, pulled, forwarderEnd := Forward(e.forwarders[0], Source<int>.StreamSource([]), 1);
    var tasks := [Returned(forwarderEnd)];
    var trace, end := RunLoopAsWritten(e, sent, [], tasks);
    asWritten := Run(trace, end);
    trace, end := RunLoopCorrected(e, sent, [], tasks);
    corrected := Run(trace, end);
  }

  /** The corrected expansion of a `select_loop!` with hooks only, its
      channel typed `channel::<__Message>(0)` (nothing else fixes the item
      type when no forwarder sends): no forwarder is spawned, so the channel
      has no sender from the start and the loop breaks after the before hooks. */
  method NoSourcedBranch(bs: seq<Branch>) returns (corrected: Run<int>)
    requires SourcedOf(bs) == []
    ensures corrected == Run(BeforeRun(|HooksOf(bs, Before)|) + [Closed], Exhausted)
  {
    var e := Expand(SplitOf(bs));
    var trace, end := RunLoopCorrected<int>(e, [], [], []);
    corrected := Run(trace, end);
  }
}
