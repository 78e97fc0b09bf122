/** What the emitted loop guarantees, proved about its semantics `LoopFrom`:
    how it ends, which arms it runs and in what order, and where the hooks run
    relative to each receive and each arm. */
module DriverProperties {
  import opened Syntax
  import opened Partition
  import opened Expansion
  import opened Forwarding
  import opened Driver

  /** The loop breaks exactly when some arm breaks; it sees the end of the
      channel exactly when no arm breaks and no sender is left; otherwise it
      waits forever. */
  lemma {:induction false} LoopEnding<T>(e: Expansion, incoming: seq<Message<T>>, outcomes: seq<Control>, k: nat,
                                         forwardersDone: bool, ownSenderDropped: bool)
    requires Delivery(e, incoming, outcomes) && k <= |incoming|
    ensures LoopFrom(e, incoming, outcomes, k, forwardersDone, ownSenderDropped).end == Broke
            <==> Break in outcomes[k..]
    ensures LoopFrom(e, incoming, outcomes, k, forwardersDone, ownSenderDropped).end == Exhausted
            <==> Break !in outcomes[k..] && ChannelEnds(forwardersDone, ownSenderDropped)
    ensures LoopFrom(e, incoming, outcomes, k, forwardersDone, ownSenderDropped).end == Waiting
            <==> Break !in outcomes[k..] && !ChannelEnds(forwardersDone, ownSenderDropped)
    decreases |incoming| - k
  {
    if k < |incoming| {
      assert outcomes[k..] == [outcomes[k]] + outcomes[k + 1..];
      if outcomes[k] != Break {
        LoopEnding(e, incoming, outcomes, k + 1, forwardersDone, ownSenderDropped);
      }
    }
  }

  /** No iteration contains the end-of-channel event. */
  lemma IterationNotClosed<T>(e: Expansion, m: Message<T>, o: Control)
    requires Declared(e, m)
    ensures Closed !in Iteration(e, m, o)
  {
    var it := Iteration(e, m, o);
    forall p | 0 <= p < |it| ensures !it[p].Closed? {
    }
  }

  /** The `else { break; }` of the receive is taken, and then as the loop's
      last step, exactly when the loop ends by exhaustion. */
  lemma {:induction false} ClosedIffExhausted<T>(e: Expansion, incoming: seq<Message<T>>, outcomes: seq<Control>, k: nat,
                                                 forwardersDone: bool, ownSenderDropped: bool)
    requires Delivery(e, incoming, outcomes) && k <= |incoming|
    ensures var r := LoopFrom(e, incoming, outcomes, k, forwardersDone, ownSenderDropped);
            (Closed in r.trace <==> r.end == Exhausted) &&
            (r.end == Exhausted ==> r.trace[|r.trace| - 1] == Closed)
    decreases |incoming| - k
  {
    if k < |incoming| {
      IterationNotClosed(e, incoming[k], outcomes[k]);
      if outcomes[k] != Break {
        ClosedIffExhausted(e, incoming, outcomes, k + 1, forwardersDone, ownSenderDropped);
      }
    } else {
      var before := BeforeRun<T>(|e.before|);
      assert Closed !in before;
    }
  }

  /** The arm runs of a trace, in order. */
  function Handlers<T>(t: seq<Event<T>>): seq<Event<T>>
    decreases |t|
  {
    if t == [] then []
    else (if t[0].Handled? then [t[0]] else []) + Handlers(t[1..])
  }

  lemma {:induction false} HandlersConcat<T>(a: seq<Event<T>>, b: seq<Event<T>>)
    ensures Handlers(a + b) == Handlers(a) + Handlers(b)
    decreases |a|
  {
    if a != [] {
      assert (a + b)[0] == a[0] && (a + b)[1..] == a[1..] + b;
      HandlersConcat(a[1..], b);
    } else {
      assert a + b == b;
    }
  }

  lemma {:induction false} NoHandlers<T>(t: seq<Event<T>>)
    requires forall p :: 0 <= p < |t| ==> !t[p].Handled?
    ensures Handlers(t) == []
    decreases |t|
  {
    if t != [] {
      NoHandlers(t[1..]);
    }
  }

  /** An iteration runs exactly one arm: the one of the received message's
      variant, on its payload. */
  lemma IterationHandlers<T>(e: Expansion, m: Message<T>, o: Control)
    requires Declared(e, m)
    ensures Handlers(Iteration(e, m, o)) == [Handled(ArmOf(e, m), m.payload, o)]
  {
    var before := BeforeRun<T>(|e.before|);
    var after: seq<Event<T>> := if o == Normal then AfterRun<T>(|e.after|) else [];
    var h: Event<T> := Handled(ArmOf(e, m), m.payload, o);
    NoHandlers(before);
    NoHandlers(after);
    NoHandlers([Received(m)]);
    HandlersConcat(before, [Received(m), h]);
    HandlersConcat([Received(m)], [h]);
    HandlersConcat(before + [Received(m), h], after);
  }

  /** How many messages the loop receives from `k` on: up to and including
      the first whose arm breaks, or all of them. */
  function ReceiveCount(outcomes: seq<Control>, k: nat): nat
    requires k <= |outcomes|
    decreases |outcomes| - k
  {
    if k == |outcomes| then 0
    else if outcomes[k] == Break then 1
    else 1 + ReceiveCount(outcomes, k + 1)
  }

  lemma {:induction false} ReceiveCountBound(outcomes: seq<Control>, k: nat)
    requires k <= |outcomes|
    ensures k + ReceiveCount(outcomes, k) <= |outcomes|
    decreases |outcomes| - k
  {
    if k < |outcomes| && outcomes[k] != Break {
      ReceiveCountBound(outcomes, k + 1);
    }
  }

  /** `ReceiveCount` stops at the first break, and only there. */
  lemma {:induction false} ReceivedUpToFirstBreak(outcomes: seq<Control>, k: nat)
    requires k <= |outcomes|
    ensures k + ReceiveCount(outcomes, k) <= |outcomes|
    ensures Break !in outcomes[k..] ==> k + ReceiveCount(outcomes, k) == |outcomes|
    ensures Break in outcomes[k..] ==>
              ReceiveCount(outcomes, k) >= 1 && outcomes[k + ReceiveCount(outcomes, k) - 1] == Break &&
              Break !in outcomes[k..k + ReceiveCount(outcomes, k) - 1]
    decreases |outcomes| - k
  {
    if k < |outcomes| {
      assert outcomes[k..] == [outcomes[k]] + outcomes[k + 1..];
      if outcomes[k] == Break {
        assert outcomes[k..k] == [];
      } else {
        ReceivedUpToFirstBreak(outcomes, k + 1);
        var n := ReceiveCount(outcomes, k + 1);
        if Break in outcomes[k + 1..] {
          assert outcomes[k..k + n] == [outcomes[k]] + outcomes[k + 1..k + n];
        }
      }
    }
  }

  /** The arm run for the i-th delivered message. */
  function ArmRun<T>(e: Expansion, incoming: seq<Message<T>>, outcomes: seq<Control>, i: nat): Event<T>
    requires Delivery(e, incoming, outcomes) && i < |incoming|
  {
    Handled(ArmOf(e, incoming[i]), incoming[i].payload, outcomes[i])
  }

  /** The arm runs of the `n` messages delivered from position `k` on, in
      delivery order. */
  function ArmRuns<T>(e: Expansion, incoming: seq<Message<T>>, outcomes: seq<Control>, k: nat, n: nat)
    : seq<Event<T>>
    requires Delivery(e, incoming, outcomes) && k + n <= |incoming|
    decreases n
  {
    if n == 0 then [] else [ArmRun(e, incoming, outcomes, k)] + ArmRuns(e, incoming, outcomes, k + 1, n - 1)
  }

  lemma {:induction false} ArmRunsIndex<T>(e: Expansion, incoming: seq<Message<T>>, outcomes: seq<Control>, k: nat, n: nat)
    requires Delivery(e, incoming, outcomes) && k + n <= |incoming|
    ensures |ArmRuns(e, incoming, outcomes, k, n)| == n
    ensures forall j :: 0 <= j < n ==> ArmRuns(e, incoming, outcomes, k, n)[j] == ArmRun(e, incoming, outcomes, k + j)
    decreases n
  {
    if n > 0 {
      ArmRunsIndex(e, incoming, outcomes, k + 1, n - 1);
    }
  }

  /** One iteration of the loop contributes the arm run of its message. */
  lemma HandlersStep<T>(e: Expansion, incoming: seq<Message<T>>, outcomes: seq<Control>, k: nat,
                        forwardersDone: bool, ownSenderDropped: bool)
    requires Delivery(e, incoming, outcomes) && k < |incoming|
    ensures Handlers(LoopFrom(e, incoming, outcomes, k, forwardersDone, ownSenderDropped).trace)
            == [ArmRun(e, incoming, outcomes, k)]
               + (if outcomes[k] == Break then []
                  else Handlers(LoopFrom(e, incoming, outcomes, k + 1, forwardersDone, ownSenderDropped).trace))
  {
    var it := Iteration(e, incoming[k], outcomes[k]);
    IterationHandlers(e, incoming[k], outcomes[k]);
    if outcomes[k] != Break {
      HandlersConcat(it, LoopFrom(e, incoming, outcomes, k + 1, forwardersDone, ownSenderDropped).trace);
    }
  }

  /** The arms the loop runs from message `k` on are those of the messages it
      receives, in delivery order. */
  lemma {:induction false} LoopHandlersFrom<T>(e: Expansion, incoming: seq<Message<T>>, outcomes: seq<Control>, k: nat,
                                               forwardersDone: bool, ownSenderDropped: bool)
    requires Delivery(e, incoming, outcomes) && k <= |incoming|
    ensures k + ReceiveCount(outcomes, k) <= |incoming|
    ensures Handlers(LoopFrom(e, incoming, outcomes, k, forwardersDone, ownSenderDropped).trace)
            == ArmRuns(e, incoming, outcomes, k, ReceiveCount(outcomes, k))
    decreases |incoming| - k
  {
    ReceiveCountBound(outcomes, k);
    var h := Handlers(LoopFrom(e, incoming, outcomes, k, forwardersDone, ownSenderDropped).trace);
    if k == |incoming| {
      NoHandlers(LoopFrom(e, incoming, outcomes, k, forwardersDone, ownSenderDropped).trace);
    } else {
      HandlersStep(e, incoming, outcomes, k, forwardersDone, ownSenderDropped);
      var first := ArmRun(e, incoming, outcomes, k);
      if outcomes[k] == Break {
        assert h == [first] == ArmRuns(e, incoming, outcomes, k, 1);
      } else {
        var c := ReceiveCount(outcomes, k + 1);
        var h1 := Handlers(LoopFrom(e, incoming, outcomes, k + 1, forwardersDone, ownSenderDropped).trace);
        assert h == [first] + h1;
        LoopHandlersFrom(e, incoming, outcomes, k + 1, forwardersDone, ownSenderDropped);
        assert ArmRuns(e, incoming, outcomes, k, 1 + c) == [first] + ArmRuns(e, incoming, outcomes, k + 1, c);
      }
    }
  }

  /** What the arm runs of the received messages are, as a sequence `h`. */
  ghost predicate DispatchedInOrder<T>(e: Expansion, incoming: seq<Message<T>>, outcomes: seq<Control>, h: seq<Event<T>>)
    requires Delivery(e, incoming, outcomes)
  {
    |h| <= |incoming| &&
    (forall j :: 0 <= j < |h| ==> h[j] == Handled(ArmOf(e, incoming[j]), incoming[j].payload, outcomes[j])) &&
    (Break !in outcomes ==> |h| == |incoming|) &&
    (Break in outcomes ==> |h| >= 1 && outcomes[|h| - 1] == Break && Break !in outcomes[..|h| - 1])
  }

  lemma ArmRunsInOrder<T>(e: Expansion, incoming: seq<Message<T>>, outcomes: seq<Control>)
    requires Delivery(e, incoming, outcomes)
    ensures ReceiveCount(outcomes, 0) <= |incoming|
    ensures DispatchedInOrder(e, incoming, outcomes, ArmRuns(e, incoming, outcomes, 0, ReceiveCount(outcomes, 0)))
  {
    var n := ReceiveCount(outcomes, 0);
    ReceivedUpToFirstBreak(outcomes, 0);
    var h := ArmRuns(e, incoming, outcomes, 0, n);
    ArmRunsIndex(e, incoming, outcomes, 0, n);
    assert outcomes[0..] == outcomes;
    forall j | 0 <= j < |h| ensures h[j] == Handled(ArmOf(e, incoming[j]), incoming[j].payload, outcomes[j]) {
      assert h[j] == ArmRun(e, incoming, outcomes, 0 + j);
    }
    if Break in outcomes {
      assert outcomes[0..0 + n - 1] == outcomes[..n - 1];
    }
  }

  /** The loop runs one arm per received message, in delivery order, each the
      arm of the message's variant on the message's payload; it receives up to
      and including the first message whose arm breaks, or every message if
      none does. */
  lemma LoopDispatches<T>(e: Expansion, incoming: seq<Message<T>>, outcomes: seq<Control>,
                          forwardersDone: bool, ownSenderDropped: bool)
    requires Delivery(e, incoming, outcomes)
    ensures DispatchedInOrder(e, incoming, outcomes,
                              Handlers(LoopFrom(e, incoming, outcomes, 0, forwardersDone, ownSenderDropped).trace))
  {
    LoopHandlersFrom(e, incoming, outcomes, 0, forwardersDone, ownSenderDropped);
    ArmRunsInOrder(e, incoming, outcomes);
  }

  /** Every receive comes right after a full run of the before hooks, in
      declaration order. */
  ghost predicate BeforeHooksPrecedeReceives<T>(t: seq<Event<T>>, nb: nat) {
    forall p :: 0 <= p < |t| && t[p].Received? ==> nb <= p && t[p - nb..p] == BeforeRun<T>(nb)
  }

  /** Every receive is followed at once by the one arm of the message's
      variant, on its payload, and every arm run follows a receive. */
  ghost predicate ArmFollowsReceive<T>(e: Expansion, t: seq<Event<T>>) {
    (forall p :: 0 <= p < |t| && t[p].Received? ==>
       p + 1 < |t| && Declared(e, t[p].message) && t[p + 1].Handled? &&
       t[p + 1].arm == ArmOf(e, t[p].message) && t[p + 1].payload == t[p].message.payload) &&
    (forall p :: 0 <= p < |t| && t[p].Handled? ==> 1 <= p && t[p - 1].Received?)
  }

  /** An arm that falls through is followed by all after hooks in declaration
      order; one that continues is not followed by any after hook; one that
      breaks is the last event.  Every after hook belongs to the block that
      follows an arm that fell through. */
  ghost predicate AfterHooksFollowArms<T>(t: seq<Event<T>>, na: nat) {
    (forall p :: 0 <= p < |t| && t[p].Handled? ==>
       (t[p].outcome == Normal ==> p + 1 + na <= |t| && t[p + 1..p + 1 + na] == AfterRun<T>(na)) &&
       (t[p].outcome == Continue ==> p + 1 == |t| || !t[p + 1].AfterHook?) &&
       (t[p].outcome == Break ==> p + 1 == |t|)) &&
    (forall p :: 0 <= p < |t| && t[p].AfterHook? ==>
       t[p].hook < p && t[p - t[p].hook - 1].Handled? && t[p - t[p].hook - 1].outcome == Normal)
  }

  ghost predicate Ordered<T>(e: Expansion, t: seq<Event<T>>) {
    BeforeHooksPrecedeReceives(t, |e.before|) && ArmFollowsReceive(e, t) && AfterHooksFollowArms(t, |e.after|)
  }

  /** Where one piece of trace may be followed by another. */
  ghost predicate Joinable<T>(a: seq<Event<T>>, b: seq<Event<T>>) {
    |b| > 0 ==>
      (b[0].BeforeHook? || b[0].Received? || b[0].Closed?) &&
      forall p :: 0 <= p < |a| && a[p].Handled? ==> a[p].outcome != Break
  }

  lemma ConcatBeforeHooks<T>(a: seq<Event<T>>, b: seq<Event<T>>, nb: nat)
    requires BeforeHooksPrecedeReceives(a, nb) && BeforeHooksPrecedeReceives(b, nb)
    ensures BeforeHooksPrecedeReceives(a + b, nb)
  {
    var t := a + b;
    forall p | 0 <= p < |t| && t[p].Received? ensures nb <= p && t[p - nb..p] == BeforeRun<T>(nb) {
      if p < |a| {
        assert t[p - nb..p] == a[p - nb..p];
      } else {
        var q := p - |a|;
        assert b[q].Received?;
        assert t[p - nb..p] == b[q - nb..q];
      }
    }
  }

  lemma ConcatArms<T>(e: Expansion, a: seq<Event<T>>, b: seq<Event<T>>)
    requires ArmFollowsReceive(e, a) && ArmFollowsReceive(e, b) && Joinable(a, b)
    ensures ArmFollowsReceive(e, a + b)
  {
    var t := a + b;
    forall p | 0 <= p < |t| && t[p].Handled? ensures 1 <= p && t[p - 1].Received? {
      if p >= |a| {
        assert b[p - |a|].Handled?;
      }
    }
    forall p | 0 <= p < |t| && t[p].Received?
      ensures p + 1 < |t| && Declared(e, t[p].message) && t[p + 1].Handled? &&
              t[p + 1].arm == ArmOf(e, t[p].message) && t[p + 1].payload == t[p].message.payload
    {
      if p < |a| {
        assert a[p].Received?;
      } else {
        assert b[p - |a|].Received?;
      }
    }
  }

  lemma ConcatAfterHooks<T>(a: seq<Event<T>>, b: seq<Event<T>>, na: nat)
    requires AfterHooksFollowArms(a, na) && AfterHooksFollowArms(b, na) && Joinable(a, b)
    ensures AfterHooksFollowArms(a + b, na)
  {
    var t := a + b;
    forall p | 0 <= p < |t| && t[p].Handled?
      ensures (t[p].outcome == Normal ==> p + 1 + na <= |t| && t[p + 1..p + 1 + na] == AfterRun<T>(na)) &&
              (t[p].outcome == Continue ==> p + 1 == |t| || !t[p + 1].AfterHook?) &&
              (t[p].outcome == Break ==> p + 1 == |t|)
    {
      if p < |a| {
        assert a[p].Handled?;
        if a[p].outcome == Normal {
          assert t[p + 1..p + 1 + na] == a[p + 1..p + 1 + na];
        }
        if p + 1 == |a| && |b| > 0 {
          assert t[p + 1] == b[0];
        }
      } else {
        var q := p - |a|;
        assert b[q].Handled?;
        if b[q].outcome == Normal {
          assert t[p + 1..p + 1 + na] == b[q + 1..q + 1 + na];
        }
      }
    }
    forall p | 0 <= p < |t| && t[p].AfterHook?
      ensures t[p].hook < p && t[p - t[p].hook - 1].Handled? && t[p - t[p].hook - 1].outcome == Normal
    {
      if p >= |a| {
        assert b[p - |a|].AfterHook?;
      }
    }
  }

  lemma ConcatOrdered<T>(e: Expansion, a: seq<Event<T>>, b: seq<Event<T>>)
    requires Ordered(e, a) && Ordered(e, b) && Joinable(a, b)
    ensures Ordered(e, a + b)
  {
    ConcatBeforeHooks(a, b, |e.before|);
    ConcatArms(e, a, b);
    ConcatAfterHooks(a, b, |e.after|);
  }

  /** The layout of one iteration that receives `m` and whose arm finishes
      with `o`, event by event. */
  ghost predicate Laid<T>(e: Expansion, it: seq<Event<T>>, m: Message<T>, o: Control) {
    var nb := |e.before|;
    Declared(e, m) &&
    |it| == nb + 2 + (if o == Normal then |e.after| else 0) &&
    it[..nb] == BeforeRun<T>(nb) &&
    (forall i :: 0 <= i < nb ==> it[i] == BeforeHook(i)) &&
    it[nb] == Received(m) && it[nb + 1] == Handled(ArmOf(e, m), m.payload, o) &&
    (forall i :: nb + 2 <= i < |it| ==> it[i] == AfterHook(i - nb - 2))
  }

  lemma IterationLayout<T>(e: Expansion, m: Message<T>, o: Control)
    requires Declared(e, m)
    ensures Laid(e, Iteration(e, m, o), m, o)
  {
  }

  lemma LaidBeforeHooks<T>(e: Expansion, it: seq<Event<T>>, m: Message<T>, o: Control)
    requires Laid(e, it, m, o)
    ensures BeforeHooksPrecedeReceives(it, |e.before|)
  {
    forall p | 0 <= p < |it| && it[p].Received? ensures p == |e.before| {
    }
  }

  lemma LaidArms<T>(e: Expansion, it: seq<Event<T>>, m: Message<T>, o: Control)
    requires Laid(e, it, m, o)
    ensures ArmFollowsReceive(e, it)
  {
    var nb := |e.before|;
    forall p | 0 <= p < |it| && it[p].Received? ensures p == nb {
    }
    forall p | 0 <= p < |it| && it[p].Handled? ensures p == nb + 1 {
    }
  }

  /** In an iteration the arm is at `nb + 1`, and only there. */
  lemma LaidArmAt<T>(e: Expansion, it: seq<Event<T>>, m: Message<T>, o: Control)
    requires Laid(e, it, m, o)
    ensures forall p :: 0 <= p < |it| && it[p].Handled? ==> p == |e.before| + 1
  {
  }

  lemma LaidAfterHooks<T>(e: Expansion, it: seq<Event<T>>, m: Message<T>, o: Control)
    requires Laid(e, it, m, o)
    ensures AfterHooksFollowArms(it, |e.after|)
    ensures forall p :: 0 <= p < |it| && it[p].Handled? ==> it[p].outcome == o
  {
    var nb, na := |e.before|, |e.after|;
    LaidArmAt(e, it, m, o);
    if o == Normal {
      assert it[nb + 2..nb + 2 + na] == AfterRun<T>(na);
    }
    LaidAfterHookOwner(e, it, m, o);
  }

  lemma LaidAfterHookOwner<T>(e: Expansion, it: seq<Event<T>>, m: Message<T>, o: Control)
    requires Laid(e, it, m, o)
    ensures forall p :: 0 <= p < |it| && it[p].AfterHook? ==>
              it[p].hook < p && it[p - it[p].hook - 1].Handled? && it[p - it[p].hook - 1].outcome == Normal
  {
    var nb := |e.before|;
    forall p | 0 <= p < |it| && it[p].AfterHook? ensures p - it[p].hook - 1 == nb + 1 && o == Normal {
    }
  }

  /** Only the last event of a loop trace can be the arm that broke, and a
      loop trace starts with a before hook, a receive or the end of the
      channel. */
  ghost predicate Opens<T>(t: seq<Event<T>>) {
    |t| > 0 ==> t[0].BeforeHook? || t[0].Received? || t[0].Closed?
  }

  lemma LaidOrdered<T>(e: Expansion, it: seq<Event<T>>, m: Message<T>, o: Control)
    requires Laid(e, it, m, o)
    ensures Ordered(e, it) && Opens(it)
    ensures forall p :: 0 <= p < |it| && it[p].Handled? ==> it[p].outcome == o
  {
    LaidBeforeHooks(e, it, m, o);
    LaidArms(e, it, m, o);
    LaidAfterHooks(e, it, m, o);
  }

  /** An iteration that does not break, followed by the rest of the loop. */
  lemma LaidJoin<T>(e: Expansion, it: seq<Event<T>>, m: Message<T>, o: Control, rest: seq<Event<T>>)
    requires Laid(e, it, m, o) && o != Break && Ordered(e, rest) && Opens(rest)
    ensures Ordered(e, it + rest) && Opens(it + rest)
  {
    LaidOrdered(e, it, m, o);
    ConcatOrdered(e, it, rest);
  }

  /** The end of a loop that received its last message. */
  lemma EndingOrdered<T>(e: Expansion, t: seq<Event<T>>)
    requires forall p :: 0 <= p < |t| ==> t[p].BeforeHook? || t[p].Closed?
    ensures Ordered(e, t) && Opens(t)
  {
  }

  /** One iteration of the loop semantics, as a trace. */
  lemma TraceStep<T>(e: Expansion, incoming: seq<Message<T>>, outcomes: seq<Control>, k: nat,
                     forwardersDone: bool, ownSenderDropped: bool)
    requires Delivery(e, incoming, outcomes) && k < |incoming|
    ensures LoopFrom(e, incoming, outcomes, k, forwardersDone, ownSenderDropped).trace
            == Iteration(e, incoming[k], outcomes[k])
               + (if outcomes[k] == Break then []
                  else LoopFrom(e, incoming, outcomes, k + 1, forwardersDone, ownSenderDropped).trace)
  {
  }

  /** Every trace of the emitted loop keeps the order of hooks, receives and
      arms: before hooks then a receive, the message's arm right after its
      receive, after hooks only right after an arm that fell through, and
      nothing after an arm that broke. */
  lemma {:induction false} LoopOrdered<T>(e: Expansion, incoming: seq<Message<T>>, outcomes: seq<Control>, k: nat,
                                          forwardersDone: bool, ownSenderDropped: bool)
    requires Delivery(e, incoming, outcomes) && k <= |incoming|
    ensures Ordered(e, LoopFrom(e, incoming, outcomes, k, forwardersDone, ownSenderDropped).trace)
    ensures Opens(LoopFrom(e, incoming, outcomes, k, forwardersDone, ownSenderDropped).trace)
    decreases |incoming| - k
  {
    var t := LoopFrom(e, incoming, outcomes, k, forwardersDone, ownSenderDropped).trace;
    if k == |incoming| {
      EndingOrdered(e, t);
    } else {
      var m, o := incoming[k], outcomes[k];
      var it := Iteration(e, m, o);
      IterationLayout(e, m, o);
      TraceStep(e, incoming, outcomes, k, forwardersDone, ownSenderDropped);
      if o == Break {
        assert t == it;
        LaidOrdered(e, it, m, o);
      } else {
        var rest := LoopFrom(e, incoming, outcomes, k + 1, forwardersDone, ownSenderDropped).trace;
        assert t == it + rest;
        LoopOrdered(e, incoming, outcomes, k + 1, forwardersDone, ownSenderDropped);
        LaidJoin(e, it, m, o, rest);
      }
    }
  }

  /** Whatever interleaving the channel delivers, every message forwarder i
      sends is one the `match` has an arm for, and that arm is arm i. */
  lemma ForwardedReachOwnArm<T>(split: SelectSplit, i: nat, items: seq<T>, accepted: nat)
    requires i < |split.sourced|
    ensures forall m :: m in Forwarded(Expand(split).forwarders[i].variant, items, accepted) ==>
              Declared(Expand(split), m) && ArmOf(Expand(split), m) == i
  {
    ForwarderReachesOwnArm(split, i);
    ForwardedPayloads(Expand(split).forwarders[i].variant, items, accepted);
  }
}
