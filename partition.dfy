/** `Select::split`: sorts the parsed branches into before hooks, after hooks
    and sourced branches, each list in declaration order. */
module Partition {
  import opened Syntax

  datatype SelectSplit = SelectSplit(before: seq<HookBranch>, after: seq<HookBranch>, sourced: seq<SourcedBranch>)

  /** The hooks of one kind among `bs`, in declaration order. */
  function HooksOf(bs: seq<Branch>, kind: HookKind): seq<HookBranch>
    decreases |bs|
  {
    if bs == [] then []
    else (if bs[0].Hook? && bs[0].hook.kind == kind then [bs[0].hook] else []) + HooksOf(bs[1..], kind)
  }

  /** The sourced branches among `bs`, in declaration order. */
  function SourcedOf(bs: seq<Branch>): seq<SourcedBranch>
    decreases |bs|
  {
    if bs == [] then []
    else (if bs[0].Sourced? then [bs[0].sourced] else []) + SourcedOf(bs[1..])
  }

  function AsHooks(hs: seq<HookBranch>): seq<Branch>
    decreases |hs|
  {
    if hs == [] then [] else [Hook(hs[0])] + AsHooks(hs[1..])
  }

  function AsSourced(ss: seq<SourcedBranch>): seq<Branch>
    decreases |ss|
  {
    if ss == [] then [] else [Sourced(ss[0])] + AsSourced(ss[1..])
  }

  /** The three lists put back together as branches. */
  function Rejoin(split: SelectSplit): seq<Branch> {
    AsHooks(split.before) + AsHooks(split.after) + AsSourced(split.sourced)
  }

  /** Selecting hooks commutes with concatenation: the relative order of the
      hooks of `xs` and `ys` is kept. */
  lemma {:induction false} HooksOfConcat(xs: seq<Branch>, ys: seq<Branch>, kind: HookKind)
    ensures HooksOf(xs + ys, kind) == HooksOf(xs, kind) + HooksOf(ys, kind)
    decreases |xs|
  {
    if xs != [] {
      assert (xs + ys)[0] == xs[0] && (xs + ys)[1..] == xs[1..] + ys;
      HooksOfConcat(xs[1..], ys, kind);
    } else {
      assert xs + ys == ys;
    }
  }

  /** Selecting sourced branches commutes with concatenation. */
  lemma {:induction false} SourcedOfConcat(xs: seq<Branch>, ys: seq<Branch>)
    ensures SourcedOf(xs + ys) == SourcedOf(xs) + SourcedOf(ys)
    decreases |xs|
  {
    if xs != [] {
      assert (xs + ys)[0] == xs[0] && (xs + ys)[1..] == xs[1..] + ys;
      SourcedOfConcat(xs[1..], ys);
    } else {
      assert xs + ys == ys;
    }
  }

  /** A hook is selected exactly when it is declared with that kind. */
  lemma {:induction false} HooksOfMembers(bs: seq<Branch>, kind: HookKind, h: HookBranch)
    ensures h in HooksOf(bs, kind) <==> Hook(h) in bs && h.kind == kind
    decreases |bs|
  {
    if bs != [] {
      HooksOfMembers(bs[1..], kind, h);
      assert bs == [bs[0]] + bs[1..];
    }
  }

  /** A sourced branch is selected exactly when it is declared. */
  lemma {:induction false} SourcedOfMembers(bs: seq<Branch>, s: SourcedBranch)
    ensures s in SourcedOf(bs) <==> Sourced(s) in bs
    decreases |bs|
  {
    if bs != [] {
      SourcedOfMembers(bs[1..], s);
      assert bs == [bs[0]] + bs[1..];
    }
  }

  /** The multiset of branches the three lists stand for. */
  function SplitBag(split: SelectSplit): multiset<Branch> {
    multiset(AsHooks(split.before)) + multiset(AsHooks(split.after)) + multiset(AsSourced(split.sourced))
  }

  /** Splitting loses and duplicates nothing: the three lists hold, between
      them, exactly the declared branches. */
  lemma {:induction false} SplitIsPermutation(bs: seq<Branch>)
    ensures multiset(Rejoin(SplitOf(bs))) == multiset(bs)
  {
    SplitBagIsMultiset(bs);
  }

  /** The split of the branches as a value. */
  function SplitOf(bs: seq<Branch>): SelectSplit {
    SelectSplit(HooksOf(bs, Before), HooksOf(bs, After), SourcedOf(bs))
  }

  lemma {:induction false} SplitBagIsMultiset(bs: seq<Branch>)
    ensures SplitBag(SplitOf(bs)) == multiset(bs)
    decreases |bs|
  {
    if bs != [] {
      SplitBagIsMultiset(bs[1..]);
      SplitBagStep(bs);
      MultisetCons(bs);
    }
  }

  /** Splitting one more branch adds exactly that branch to the bag. */
  lemma SplitBagStep(bs: seq<Branch>)
    requires bs != []
    ensures SplitBag(SplitOf(bs)) == multiset{bs[0]} + SplitBag(SplitOf(bs[1..]))
  {
    HooksBagStep(bs, Before);
    HooksBagStep(bs, After);
    SourcedBagStep(bs);
    var b0 := multiset(AsHooks(HooksOf(bs[1..], Before)));
    var a0 := multiset(AsHooks(HooksOf(bs[1..], After)));
    var s0 := multiset(AsSourced(SourcedOf(bs[1..])));
    var b1 := multiset(AsHooks(HooksOf(bs, Before)));
    var a1 := multiset(AsHooks(HooksOf(bs, After)));
    var s1 := multiset(AsSourced(SourcedOf(bs)));
    var one := multiset{bs[0]};
    UnionFront(one, b0, a0, s0);
    if bs[0].Sourced? {
      assert b1 == b0 && a1 == a0 && s1 == one + s0;
    } else if bs[0].hook.kind == Before {
      assert b1 == one + b0 && a1 == a0 && s1 == s0;
    } else {
      assert b1 == b0 && a1 == one + a0 && s1 == s0;
    }
    assert SplitBag(SplitOf(bs)) == b1 + a1 + s1;
  }

  /** Adding one element to any of three bags adds it to their union. */
  lemma UnionFront<T>(one: multiset<T>, x: multiset<T>, y: multiset<T>, z: multiset<T>)
    ensures (one + x) + y + z == one + (x + y + z)
    ensures x + (one + y) + z == one + (x + y + z)
    ensures x + y + (one + z) == one + (x + y + z)
  {
  }

  /** One step of `HooksOf`, counted as a bag of branches. */
  lemma HooksBagStep(bs: seq<Branch>, kind: HookKind)
    requires bs != []
    ensures multiset(AsHooks(HooksOf(bs, kind)))
         == (if bs[0].Hook? && bs[0].hook.kind == kind then multiset{bs[0]} else multiset{})
            + multiset(AsHooks(HooksOf(bs[1..], kind)))
  {
    var tail := HooksOf(bs[1..], kind);
    if bs[0].Hook? && bs[0].hook.kind == kind {
      assert HooksOf(bs, kind) == [bs[0].hook] + tail;
      assert AsHooks([bs[0].hook] + tail) == [bs[0]] + AsHooks(tail);
    } else {
      assert HooksOf(bs, kind) == tail;
    }
  }

  /** One step of `SourcedOf`, counted as a bag of branches. */
  lemma SourcedBagStep(bs: seq<Branch>)
    requires bs != []
    ensures multiset(AsSourced(SourcedOf(bs)))
         == (if bs[0].Sourced? then multiset{bs[0]} else multiset{})
            + multiset(AsSourced(SourcedOf(bs[1..])))
  {
    var tail := SourcedOf(bs[1..]);
    if bs[0].Sourced? {
      assert SourcedOf(bs) == [bs[0].sourced] + tail;
      assert AsSourced([bs[0].sourced] + tail) == [bs[0]] + AsSourced(tail);
    } else {
      assert SourcedOf(bs) == tail;
    }
  }

  lemma MultisetCons<T>(s: seq<T>)
    requires s != []
    ensures multiset(s) == multiset{s[0]} + multiset(s[1..])
  {
    assert s == [s[0]] + s[1..];
  }

  /** The three lists together are as long as the declaration list. */
  lemma {:induction false} SplitCount(bs: seq<Branch>)
    ensures |HooksOf(bs, Before)| + |HooksOf(bs, After)| + |SourcedOf(bs)| == |bs|
    decreases |bs|
  {
    if bs != [] {
      SplitCount(bs[1..]);
    }
  }

  /** `Select::split`: one pass over the branches, pushing each hook onto the
      list of its kind and each sourced branch onto `sourced`. */
  method Split(branches: seq<Branch>) returns (split: SelectSplit)
    ensures split.before == HooksOf(branches, Before)
    ensures split.after == HooksOf(branches, After)
    ensures split.sourced == SourcedOf(branches)
    ensures |split.before| + |split.after| + |split.sourced| == |branches|
    ensures forall h :: h in split.before <==> Hook(h) in branches && h.kind == Before
    ensures forall h :: h in split.after <==> Hook(h) in branches && h.kind == After
    ensures forall s :: s in split.sourced <==> Sourced(s) in branches
    ensures multiset(Rejoin(split)) == multiset(branches)
  {
    var before, after, sourced := [], [], [];
    for i := 0 to |branches|
      invariant before == HooksOf(branches[..i], Before)
      invariant after == HooksOf(branches[..i], After)
      invariant sourced == SourcedOf(branches[..i])
    {
      assert branches[..i + 1] == branches[..i] + [branches[i]];
      HooksOfConcat(branches[..i], [branches[i]], Before);
      HooksOfConcat(branches[..i], [branches[i]], After);
      SourcedOfConcat(branches[..i], [branches[i]]);
      match branches[i]
      case Hook(h) =>
        if h.kind == Before {
          before := before + [h];
        } else {
          after := after + [h];
        }
      case Sourced(s) =>
        sourced := sourced + [s];
    }
    assert branches[..|branches|] == branches;
    split := SelectSplit(before, after, sourced);
    SplitCount(branches);
    SplitIsPermutation(branches);
    forall h ensures h in split.before <==> Hook(h) in branches && h.kind == Before {
      HooksOfMembers(branches, Before, h);
    }
    forall h ensures h in split.after <==> Hook(h) in branches && h.kind == After {
      HooksOfMembers(branches, After, h);
    }
    forall s ensures s in split.sourced <==> Sourced(s) in branches {
      SourcedOfMembers(branches, s);
    }
  }
}
