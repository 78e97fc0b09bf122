/** The loop `select_loop` emits (each iteration runs the before hooks,
    receives one message, runs the arm of the message's variant and then the
    after hooks), run over a given delivery order of the forwarders' messages.
    The scheduler's interleaving is not modelled: `incoming` is whatever order
    the channel delivered, `outcomes[k]` is how the arm body handling
    `incoming[k]` finished, and `forwardersDone` says whether every forwarder
    task has returned, dropping its sender, once `incoming` is delivered. */
module Driver {
  import opened Syntax
  import opened Expansion
  import opened Forwarding

  /** How an arm body finished: by falling through, by `continue` or by `break`. */
  datatype Control = Normal | Continue | Break

  datatype Event<T> =
    | BeforeHook(hook: nat)
    | Received(message: Message<T>)
    | Handled(arm: nat, payload: T, outcome: Control)
    | AfterHook(hook: nat)
    | Closed

  /** `Broke`: an arm broke out of the loop.  `Exhausted`: the receive saw the
      end of the channel and took the `else { break; }` branch.  `Waiting`:
      the receive is pending with no message ever to come, so the loop never
      finishes. */
  datatype LoopEnd = Broke | Exhausted | Waiting

  datatype Run<T> = Run(trace: seq<Event<T>>, end: LoopEnd)

  /** The message's variant is one of the enum's, so the `match` has an arm for it. */
  predicate Declared<T>(e: Expansion, m: Message<T>) {
    ArmFor(e.arms, m.variant).Some?
  }

  function ArmOf<T>(e: Expansion, m: Message<T>): nat
    requires Declared(e, m)
  {
    ArmFor(e.arms, m.variant).value
  }

  /** `#({#before})*`: the before hooks, in declaration order. */
  function BeforeRun<T>(n: nat): (r: seq<Event<T>>)
    ensures |r| == n && forall i :: 0 <= i < n ==> r[i] == BeforeHook(i)
  {
    if n == 0 then [] else BeforeRun(n - 1) + [BeforeHook(n - 1)]
  }

  /** `#({#after})*`: the after hooks, in declaration order. */
  function AfterRun<T>(n: nat): (r: seq<Event<T>>)
    ensures |r| == n && forall i :: 0 <= i < n ==> r[i] == AfterHook(i)
  {
    if n == 0 then [] else AfterRun(n - 1) + [AfterHook(n - 1)]
  }

  /** One iteration that receives `m`: before hooks, the receive, the arm of
      `m`'s variant with `m`'s payload, and the after hooks only when the arm
      body fell through (a `continue` or `break` in it skips them). */
  function Iteration<T>(e: Expansion, m: Message<T>, o: Control): seq<Event<T>>
    requires Declared(e, m)
  {
    BeforeRun<T>(|e.before|) + [Received(m), Handled(ArmOf(e, m), m.payload, o)]
    + (if o == Normal then AfterRun<T>(|e.after|) else [])
  }

  /** The inputs a run is defined on: one outcome per delivered message, and
      every message of one of the enum's variants (the generated code only
      constructs those). */
  ghost predicate Delivery<T>(e: Expansion, incoming: seq<Message<T>>, outcomes: seq<Control>) {
    |outcomes| == |incoming| && forall k :: 0 <= k < |incoming| ==> Declared(e, incoming[k])
  }

  /** Whether the receive sees the end of the channel once `incoming` is
      consumed: only when no sender is left. */
  predicate ChannelEnds(forwardersDone: bool, ownSenderDropped: bool) {
    forwardersDone && ownSenderDropped
  }

  /** The iterations from message `k` on: the loop semantics the method
      `RunLoop` is checked against. */
  ghost function LoopFrom<T>(e: Expansion, incoming: seq<Message<T>>, outcomes: seq<Control>, k: nat,
                             forwardersDone: bool, ownSenderDropped: bool): Run<T>
    requires Delivery(e, incoming, outcomes) && k <= |incoming|
    decreases |incoming| - k
  {
    if k == |incoming| then
      if ChannelEnds(forwardersDone, ownSenderDropped) then Run(BeforeRun<T>(|e.before|) + [Closed], Exhausted)
      else Run(BeforeRun<T>(|e.before|), Waiting)
    else
      var it := Iteration(e, incoming[k], outcomes[k]);
      if outcomes[k] == Break then Run(it, Broke)
      else
        var rest := LoopFrom(e, incoming, outcomes, k + 1, forwardersDone, ownSenderDropped);
        Run(it + rest.trace, rest.end)
  }

  /** Appends the `n` hooks of one kind, in order, to the trace. */
  method RunHooks<T>(trace: seq<Event<T>>, n: nat, kind: HookKind) returns (t: seq<Event<T>>)
    ensures t == trace + (if kind == Before then BeforeRun<T>(n) else AfterRun<T>(n))
  {
    t := trace;
    for i := 0 to n
      invariant t == trace + (if kind == Before then BeforeRun<T>(i) else AfterRun<T>(i))
    {
      t := t + [if kind == Before then BeforeHook(i) else AfterHook(i)];
    }
  }

  /** The body of one iteration that receives `m` and whose arm finishes with `o`. */
  method RunIteration<T>(e: Expansion, m: Message<T>, o: Control, trace: seq<Event<T>>)
    returns (t: seq<Event<T>>)
    requires Declared(e, m)
    ensures t == trace + Iteration(e, m, o)
  {
    t := RunHooks(trace, |e.before|, Before);
    var arm := ArmFor(e.arms, m.variant).value;
    var middle := [Received(m), Handled(arm, m.payload, o)];
    t := t + middle;
    var opening := BeforeRun<T>(|e.before|) + middle;
    assert t == trace + opening;
    if o == Normal {
      t := RunHooks(t, |e.after|, After);
      assert t == trace + (opening + AfterRun<T>(|e.after|));
    } else {
      assert opening + [] == opening;
    }
  }

  /** The iteration after the last delivered message: the before hooks, then
      a receive that either sees the end of the channel and breaks, or never
      returns. */
  method RunLastReceive<T>(e: Expansion, trace: seq<Event<T>>, channelEnds: bool)
    returns (t: seq<Event<T>>, end: LoopEnd)
    ensures channelEnds ==> t == trace + BeforeRun<T>(|e.before|) + [Closed] && end == Exhausted
    ensures !channelEnds ==> t == trace + BeforeRun<T>(|e.before|) && end == Waiting
  {
    t := RunHooks(trace, |e.before|, Before);
    if channelEnds {
      t := t + [Closed];
      end := Exhausted;
    } else {
      end := Waiting;
    }
  }

  /** The run of the whole loop when `trace` has happened and message `k` is
      the next to be received. */
  ghost function Resumed<T>(e: Expansion, incoming: seq<Message<T>>, outcomes: seq<Control>, k: nat,
                            forwardersDone: bool, ownSenderDropped: bool, trace: seq<Event<T>>): Run<T>
    requires Delivery(e, incoming, outcomes) && k <= |incoming|
  {
    var rest := LoopFrom(e, incoming, outcomes, k, forwardersDone, ownSenderDropped);
    Run(trace + rest.trace, rest.end)
  }

  /** One pass of the loop body on message `k`; `stop` when its arm broke. */
  method RunStep<T>(e: Expansion, incoming: seq<Message<T>>, outcomes: seq<Control>, k: nat,
                    forwardersDone: bool, ownSenderDropped: bool, trace: seq<Event<T>>)
    returns (t: seq<Event<T>>, stop: bool)
    requires Delivery(e, incoming, outcomes) && k < |incoming|
    ensures stop <==> outcomes[k] == Break
    ensures stop ==> Run(t, Broke) == Resumed(e, incoming, outcomes, k, forwardersDone, ownSenderDropped, trace)
    ensures !stop ==> Resumed(e, incoming, outcomes, k + 1, forwardersDone, ownSenderDropped, t)
                      == Resumed(e, incoming, outcomes, k, forwardersDone, ownSenderDropped, trace)
  {
    t := RunIteration(e, incoming[k], outcomes[k], trace);
    stop := outcomes[k] == Break;
    var it := Iteration(e, incoming[k], outcomes[k]);
    if !stop {
      var rest := LoopFrom(e, incoming, outcomes, k + 1, forwardersDone, ownSenderDropped);
      assert (trace + it) + rest.trace == trace + (it + rest.trace);
    }
  }

  /** Before the first receive, the resumed run is the whole loop. */
  lemma ResumedAtStart<T>(e: Expansion, incoming: seq<Message<T>>, outcomes: seq<Control>,
                          forwardersDone: bool, ownSenderDropped: bool)
    requires Delivery(e, incoming, outcomes)
    ensures Resumed(e, incoming, outcomes, 0, forwardersDone, ownSenderDropped, [])
            == LoopFrom(e, incoming, outcomes, 0, forwardersDone, ownSenderDropped)
  {
  }

  /** Once every delivered message is handled, what is left is the last receive. */
  lemma ResumedAtEnd<T>(e: Expansion, incoming: seq<Message<T>>, outcomes: seq<Control>,
                        forwardersDone: bool, ownSenderDropped: bool, trace: seq<Event<T>>)
    requires Delivery(e, incoming, outcomes)
    ensures ChannelEnds(forwardersDone, ownSenderDropped) ==>
              Resumed(e, incoming, outcomes, |incoming|, forwardersDone, ownSenderDropped, trace)
              == Run(trace + BeforeRun<T>(|e.before|) + [Closed], Exhausted)
    ensures !ChannelEnds(forwardersDone, ownSenderDropped) ==>
              Resumed(e, incoming, outcomes, |incoming|, forwardersDone, ownSenderDropped, trace)
              == Run(trace + BeforeRun<T>(|e.before|), Waiting)
  {
    assert trace + BeforeRun<T>(|e.before|) + [Closed] == trace + (BeforeRun<T>(|e.before|) + [Closed]);
  }

  /** The emitted `loop`, run until it breaks or blocks for good. */
  method RunLoop<T>(e: Expansion, incoming: seq<Message<T>>, outcomes: seq<Control>,
                    forwardersDone: bool, ownSenderDropped: bool)
    returns (trace: seq<Event<T>>, end: LoopEnd)
    requires Delivery(e, incoming, outcomes)
    ensures Run(trace, end) == LoopFrom(e, incoming, outcomes, 0, forwardersDone, ownSenderDropped)
  {
    trace := [];
    var k := 0;
    ResumedAtStart(e, incoming, outcomes, forwardersDone, ownSenderDropped);
    while k < |incoming|
      invariant k <= |incoming|
      invariant Resumed(e, incoming, outcomes, k, forwardersDone, ownSenderDropped, trace)
                == LoopFrom(e, incoming, outcomes, 0, forwardersDone, ownSenderDropped)
      decreases |incoming| - k
    {
      var stop;
      trace, stop := RunStep(e, incoming, outcomes, k, forwardersDone, ownSenderDropped, trace);
      if stop {
        end := Broke;
        return;
      }
      k := k + 1;
    }
    ResumedAtEnd(e, incoming, outcomes, forwardersDone, ownSenderDropped, trace);
    trace, end := RunLastReceive(e, trace, ChannelEnds(forwardersDone, ownSenderDropped));
  }
}
