/** The code-generation plan of `select_loop`: what the macro emits for a split
    branch list.  The emitted tokens are not modelled; the plan records every
    choice the macro makes about them: the hook bodies in the loop, the message
    enum's type parameters and variants, one forwarder task per sourced branch
    and one match arm per sourced branch. */
module Expansion {
  import opened Syntax
  import opened Naming
  import opened Partition

  /** The forwarder spawned for one sourced branch: it evaluates `source`, converts
      it with `into_stream` when `intoStream` holds, and tags each item with
      `variant`. */
  datatype Forwarder = Forwarder(source: Expr, intoStream: bool, variant: string)

  /** `__Message::variant(binding) => body` in the receive loop's `match`. */
  datatype Arm = Arm(variant: string, binding: string, body: Expr)

  datatype Expansion = Expansion(
    before: seq<Expr>,
    after: seq<Expr>,
    typeParams: seq<string>,
    variants: seq<string>,
    forwarders: seq<Forwarder>,
    arms: seq<Arm>)

  function HookBodies(hs: seq<HookBranch>): seq<Expr> {
    seq(|hs|, i requires 0 <= i < |hs| => hs[i].body)
  }

  /** The expansion of `select_loop`, enumerating the sourced branches. */
  function Expand(split: SelectSplit): Expansion {
    var n := |split.sourced|;
    Expansion(
      HookBodies(split.before),
      HookBodies(split.after),
      seq(n, i requires 0 <= i < n => TypeParam(i)),
      seq(n, i requires 0 <= i < n => VariantName(i)),
      seq(n, i requires 0 <= i < n =>
        Forwarder(split.sourced[i].source, split.sourced[i].kind == Future, VariantName(i))),
      seq(n, i requires 0 <= i < n =>
        Arm(VariantName(i), split.sourced[i].item, split.sourced[i].body)))
  }

  /** What the generated code needs to compile and to route every message: one
      type parameter, variant, forwarder and arm per sourced branch, distinct
      variant and type names, and forwarder i and arm i agreeing on the variant
      of enum entry i. */
  ghost predicate Consistent(e: Expansion) {
    var n := |e.variants|;
    |e.typeParams| == n && |e.forwarders| == n && |e.arms| == n &&
    (forall i, j :: 0 <= i < j < n ==> e.variants[i] != e.variants[j]) &&
    (forall i, j :: 0 <= i < j < n ==> e.typeParams[i] != e.typeParams[j]) &&
    (forall i, j :: 0 <= i < n && 0 <= j < n ==> e.variants[i] != e.typeParams[j]) &&
    (forall i :: 0 <= i < n ==> e.forwarders[i].variant == e.variants[i] && e.arms[i].variant == e.variants[i])
  }

  lemma ExpandConsistent(split: SelectSplit)
    ensures Consistent(Expand(split))
    ensures |Expand(split).variants| == |split.sourced|
  {
    var e := Expand(split);
    var n := |split.sourced|;
    forall i, j | 0 <= i < j < n ensures e.variants[i] != e.variants[j] {
      NamesDistinct(i, j);
    }
    forall i, j | 0 <= i < j < n ensures e.typeParams[i] != e.typeParams[j] {
      NamesDistinct(i, j);
    }
    forall i, j | 0 <= i < n && 0 <= j < n ensures e.variants[i] != e.typeParams[j] {
      NamesDistinct(i, j);
    }
  }

  /** Reads the branches back out of a plan: a forwarder with the conversion
      came from an `F` branch, one without from an `S` branch. */
  function Recover(e: Expansion): SelectSplit
    requires |e.forwarders| == |e.arms|
  {
    SelectSplit(
      seq(|e.before|, i requires 0 <= i < |e.before| => HookBranch(Before, e.before[i])),
      seq(|e.after|, i requires 0 <= i < |e.after| => HookBranch(After, e.after[i])),
      seq(|e.arms|, i requires 0 <= i < |e.arms| =>
        SourcedBranch(if e.forwarders[i].intoStream then Future else Stream,
                      e.forwarders[i].source, e.arms[i].binding, e.arms[i].body)))
  }

  /** The expansion loses nothing: every hook body, in order, and every sourced
      branch's kind, source, binding and body, in order, can be read back from
      the plan.  In particular `into_stream` is emitted exactly for `F`
      branches. */
  lemma ExpandLossless(bs: seq<Branch>)
    ensures Recover(Expand(SplitOf(bs))) == SplitOf(bs)
  {
    var split := SplitOf(bs);
    var r := Recover(Expand(split));
    forall i | 0 <= i < |split.before| ensures split.before[i].kind == Before {
      HooksOfMembers(bs, Before, split.before[i]);
    }
    forall i | 0 <= i < |split.after| ensures split.after[i].kind == After {
      HooksOfMembers(bs, After, split.after[i]);
    }
    assert r.before == split.before;
    assert r.after == split.after;
    assert r.sourced == split.sourced;
  }

  /** The index of the first arm, from `k` on, whose variant is `tag`: the arm
      a `match` on the message runs. */
  function ArmFrom(arms: seq<Arm>, tag: string, k: nat): (r: Option<nat>)
    requires k <= |arms|
    ensures r.Some? ==> k <= r.value < |arms| && arms[r.value].variant == tag
    ensures r.Some? ==> forall j :: k <= j < r.value ==> arms[j].variant != tag
    ensures r.None? <==> forall j :: k <= j < |arms| ==> arms[j].variant != tag
    decreases |arms| - k
  {
    if k == |arms| then None
    else if arms[k].variant == tag then Some(k)
    else ArmFrom(arms, tag, k + 1)
  }

  function ArmFor(arms: seq<Arm>, tag: string): Option<nat> {
    ArmFrom(arms, tag, 0)
  }

  /** A message tagged `tag` is handled by arm i exactly when `tag` is the
      variant `M{i}` of a sourced branch i; any other tag matches no arm. */
  lemma DispatchByName(split: SelectSplit, tag: string, i: nat)
    ensures ArmFor(Expand(split).arms, tag) == Some(i) <==> i < |split.sourced| && tag == VariantName(i)
  {
    var arms := Expand(split).arms;
    var r := ArmFor(arms, tag);
    if r.Some? {
      NamesDistinct(r.value, i);
    }
    if i < |split.sourced| && tag == VariantName(i) {
      assert arms[i].variant == tag;
    }
  }

  /** Forwarder i polls branch i's source, converted into a stream exactly when
      branch i is an `F` branch; everything it sends is handled by arm i, which
      binds the item to branch i's identifier and runs branch i's body. */
  lemma ForwarderReachesOwnArm(split: SelectSplit, i: nat)
    requires i < |split.sourced|
    ensures Expand(split).forwarders[i].source == split.sourced[i].source
    ensures Expand(split).forwarders[i].intoStream <==> split.sourced[i].kind == Future
    ensures ArmFor(Expand(split).arms, Expand(split).forwarders[i].variant) == Some(i)
    ensures Expand(split).arms[i].binding == split.sourced[i].item
    ensures Expand(split).arms[i].body == split.sourced[i].body
  {
    DispatchByName(split, VariantName(i), i);
  }
}
