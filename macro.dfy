/** `select_loop` from its input tokens to its expansion plan: parse the
    branch list, split it, and enumerate the sourced branches. */
module Macro {
  import opened Syntax
  import opened Parser
  import opened Partition
  import opened Expansion

  /** The macro's compile-time work.  A branch list written in the grammar
      (with or without a trailing comma) expands to the plan of its split; an
      input that does not start like a branch is rejected with the "Expected
      `F`, `S`, `@before` or `@after`" error. */
  method SelectLoop(toks: seq<Token>) returns (r: Result<Expansion>)
    ensures forall bs, trailing :: toks == RenderList(bs, trailing) ==> r == Ok(Expand(SplitOf(bs)))
    ensures r.Ok? ==> exists bs, trailing :: toks == RenderList(bs, trailing) && r.value == Expand(SplitOf(bs))
    ensures r.Ok? ==> Consistent(r.value)
    ensures (|toks| > 0 && !IsBranchStart(toks[0])) ==> r == Err(ParseError(0, BranchStart))
  {
    var parsed := ParseSelect(toks);
    if parsed.Err? {
      return Err(parsed.error);
    }
    var branches := parsed.value;
    var split := Split(branches);
    r := Ok(Expand(split));
    ExpandConsistent(split);
    assert toks == RenderList(branches, false) || toks == RenderList(branches, true);
  }
}
