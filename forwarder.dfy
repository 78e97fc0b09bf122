/** The forwarder the macro spawns for each sourced branch: it pulls items from the
    branch's stream and sends each one, tagged with the branch's variant, into
    the channel, until the stream ends or a send fails. */
module Forwarding {
  import opened Syntax
  import opened Expansion

  /** What a branch's source expression evaluates to: a future with its one
      output, or a stream with its items. */
  datatype Source<T> = FutureSource(output: T) | StreamSource(items: seq<T>)

  /** A value of the generated `__Message` enum: `variant(payload)`. */
  datatype Message<T> = Message(variant: string, payload: T)

  datatype ForwardEnd = SourceEnded | ReceiverGone

  /** Where a spawned forwarder stands once the messages it delivers have been
      received: still polling its stream, or returned (dropping its sender). */
  datatype TaskState = Running | Returned(end: ForwardEnd)

  /** Every forwarder has returned, so none of their senders is left. */
  predicate AllReturned(tasks: seq<TaskState>) {
    forall i :: 0 <= i < |tasks| ==> tasks[i].Returned?
  }

  /** A plan fits a source when the conversion is emitted for a future and
      only for a future; the generated code does not compile otherwise. */
  predicate Fits<T>(f: Forwarder, src: Source<T>) {
    f.intoStream <==> src.FutureSource?
  }

  /** The stream the forwarder reads: `into_stream` turns a future into a stream of
      its single output. */
  function StreamOf<T>(f: Forwarder, src: Source<T>): (items: seq<T>)
    requires Fits(f, src)
    ensures f.intoStream ==> items == [src.output]
    ensures !f.intoStream ==> items == src.items
  {
    if f.intoStream then [src.output] else src.items
  }

  function Min(a: nat, b: nat): nat {
    if a <= b then a else b
  }

  /** The messages a forwarder delivers when the receiver accepts `accepted`
      more sends: each pulled item is sent at once, and the forwarder returns at
      the first send that fails. */
  function Forwarded<T>(tag: string, items: seq<T>, accepted: nat): seq<Message<T>>
    decreases |items|
  {
    if items == [] || accepted == 0 then []
    else [Message(tag, items[0])] + Forwarded(tag, items[1..], accepted - 1)
  }

  /** The forwarder delivers a prefix of its stream, in stream order, every
      item tagged with the branch's variant; the prefix is as long as the
      receiver allows. */
  lemma {:induction false} ForwardedIsTaggedPrefix<T>(tag: string, items: seq<T>, accepted: nat)
    ensures |Forwarded(tag, items, accepted)| == Min(|items|, accepted)
    ensures forall k :: 0 <= k < |Forwarded(tag, items, accepted)| ==>
              Forwarded(tag, items, accepted)[k] == Message(tag, items[k])
    decreases |items|
  {
    if items != [] && accepted != 0 {
      ForwardedIsTaggedPrefix(tag, items[1..], accepted - 1);
    }
  }

  /** Stripping the tags gives back the delivered items. */
  lemma ForwardedPayloads<T>(tag: string, items: seq<T>, accepted: nat)
    ensures forall m :: m in Forwarded(tag, items, accepted) ==> m.variant == tag
    ensures seq(|Forwarded(tag, items, accepted)|,
                k requires 0 <= k < |Forwarded(tag, items, accepted)| => Forwarded(tag, items, accepted)[k].payload)
            == items[..Min(|items|, accepted)]
  {
    ForwardedIsTaggedPrefix(tag, items, accepted);
  }

  /** The body of the spawned task: `while let Some(item) = stream.next().await
      { if sender.send(variant(item)).await.is_err() { return; } }`.  The
      receiver accepts `accepted` sends before it is dropped; `pulled` counts
      the items taken from the stream. */
  method Forward<T>(f: Forwarder, src: Source<T>, accepted: nat)
    returns (sent: seq<Message<T>>, pulled: nat, end: ForwardEnd)
    requires Fits(f, src)
    ensures sent == Forwarded(f.variant, StreamOf(f, src), accepted)
    ensures end == SourceEnded <==> |StreamOf(f, src)| <= accepted
    ensures end == SourceEnded ==> pulled == |StreamOf(f, src)|
    ensures end == ReceiverGone ==> pulled == |sent| + 1 && |sent| == accepted
  {
    var items := StreamOf(f, src);
    ForwardedIsTaggedPrefix(f.variant, items, accepted);
    sent := [];
    var k := 0;
    while k < |items|
      invariant k <= |items| && k <= accepted && |sent| == k
      invariant forall j :: 0 <= j < k ==> sent[j] == Message(f.variant, items[j])
    {
      var item := items[k];
      if |sent| == accepted {
        pulled, end := k + 1, ReceiverGone;
        return;
      }
      sent := sent + [Message(f.variant, item)];
      k := k + 1;
    }
    pulled, end := k, SourceEnded;
  }

  /** The forwarder of an `F` branch: `into_stream` makes its future a stream
      of one item, so it pulls that one item, sends it when the receiver takes
      a send, and returns because the stream has ended exactly in that case. */
  method ForwardFuture<T>(f: Forwarder, output: T, accepted: nat)
    returns (sent: seq<Message<T>>, pulled: nat, end: ForwardEnd)
    requires f.intoStream
    ensures sent == (if accepted == 0 then [] else [Message(f.variant, output)])
    ensures end == SourceEnded <==> accepted >= 1
    ensures pulled == 1
  {
    sent, pulled, end := Forward(f, FutureSource(output), accepted);
    ForwardedIsTaggedPrefix(f.variant, [output], accepted);
  }
}
