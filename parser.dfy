/** The macro's parser: `Branch::parse`, which reads one branch by advancing a
    cursor over the token stream, and `Select::parse`, which reads a
    comma-separated list of branches the way syn's `parse_terminated` does. */
module Parser {
  import opened Syntax

  /** What the parser was looking for when it stopped. */
  datatype Expected =
    | BranchStart   // "Expected `F`, `S`, `@before` or `@after`."
    | HookWord      // `before` or `after` after `@`
    | FatArrowToken
    | PipeToken
    | Identifier
    | Expression
    | CommaToken

  /** A parse error and the token position it points at. */
  datatype ParseError = ParseError(at: nat, expected: Expected)

  datatype Result<T> = Ok(value: T) | Err(error: ParseError)

  /** The token under the cursor, or `None` at the end of the input. */
  function Peek(toks: seq<Token>, i: nat): (t: Option<Token>)
    ensures t.Some? <==> i < |toks|
    ensures t.Some? ==> t.value == toks[i]
  {
    if i < |toks| then Some(toks[i]) else None
  }

  /** The tokens a branch may begin with. */
  predicate IsBranchStart(t: Token) {
    t == Word(KwF) || t == Word(KwS) || t == AtSign
  }

  /** Reads an expression at position `i`: exactly the tokens `RenderExpr` writes. */
  function ExprAt(toks: seq<Token>, i: nat): (r: Option<Expr>)
    ensures r.Some? ==> i < |toks| && toks[i] == RenderExpr(r.value)
    ensures forall e :: i < |toks| && toks[i] == RenderExpr(e) ==> r == Some(e)
  {
    if i < |toks| then
      match toks[i]
      case Word(n) => Some(PathExpr(n))
      case Group(id) => Some(GroupExpr(id))
      case _ => None
    else None
  }

  /** Reads an identifier at position `i`. */
  function IdentAt(toks: seq<Token>, i: nat): (r: Option<string>)
    ensures r.Some? <==> i < |toks| && toks[i].Word?
    ensures r.Some? ==> toks[i] == Word(r.value)
  {
    if i < |toks| && toks[i].Word? then Some(toks[i].name) else None
  }

  /** A branch written at `start` is what each step of the parser reads there. */
  lemma WrittenAtReads(toks: seq<Token>, start: nat)
    ensures forall b :: WrittenAt(toks, start, b) ==>
      match b
      case Sourced(sb) =>
        && toks[start] == Word(KindKeyword(sb.kind))
        && ExprAt(toks, start + 1) == Some(sb.source)
        && Peek(toks, start + 2) == Some(FatArrow)
        && Peek(toks, start + 3) == Some(Pipe)
        && IdentAt(toks, start + 4) == Some(sb.item)
        && Peek(toks, start + 5) == Some(Pipe)
        && ExprAt(toks, start + 6) == Some(sb.body)
      case Hook(h) =>
        && toks[start] == AtSign
        && Peek(toks, start + 1) == Some(Word(HookKeyword(h.kind)))
        && Peek(toks, start + 2) == Some(FatArrow)
        && ExprAt(toks, start + 3) == Some(h.body)
  {
    forall b | WrittenAt(toks, start, b)
      ensures toks[start] == Render(b)[0] && toks[start + 1] == Render(b)[1]
      ensures toks[start + 2] == Render(b)[2] && toks[start + 3] == Render(b)[3]
      ensures b.Sourced? ==>
        toks[start + 4] == Render(b)[4] && toks[start + 5] == Render(b)[5] && toks[start + 6] == Render(b)[6]
    {
    }
  }

  /** Where the `@` arm of `Branch::parse` stops when the branch is not
      complete: at the first missing piece of `@before => body` /
      `@after => body`, expecting that piece. */
  ghost predicate HookErrors(toks: seq<Token>, start: nat, r: Result<Branch>) {
    var word := Peek(toks, start + 1) == Some(Word(KwBefore)) || Peek(toks, start + 1) == Some(Word(KwAfter));
    && (!word ==> r == Err(ParseError(start + 1, HookWord)))
    && (word && Peek(toks, start + 2) != Some(FatArrow) ==> r == Err(ParseError(start + 2, FatArrowToken)))
    && (word && Peek(toks, start + 2) == Some(FatArrow) && ExprAt(toks, start + 3).None? ==>
          r == Err(ParseError(start + 3, Expression)))
  }

  /** Where the `F`/`S` arm of `Branch::parse` stops when the branch is not
      complete: at the first missing piece of `source => |item| body`,
      expecting that piece. */
  ghost predicate SourcedErrors(toks: seq<Token>, start: nat, r: Result<Branch>) {
    var source := ExprAt(toks, start + 1).Some?;
    var arrow := source && Peek(toks, start + 2) == Some(FatArrow);
    var open := arrow && Peek(toks, start + 3) == Some(Pipe);
    var item := open && IdentAt(toks, start + 4).Some?;
    var close := item && Peek(toks, start + 5) == Some(Pipe);
    && (!source ==> r == Err(ParseError(start + 1, Expression)))
    && (source && !arrow ==> r == Err(ParseError(start + 2, FatArrowToken)))
    && (arrow && !open ==> r == Err(ParseError(start + 3, PipeToken)))
    && (open && !item ==> r == Err(ParseError(start + 4, Identifier)))
    && (item && !close ==> r == Err(ParseError(start + 5, PipeToken)))
    && (close && ExprAt(toks, start + 6).None? ==> r == Err(ParseError(start + 6, Expression)))
  }

  /** `Branch::parse`: reads one branch starting at `start`.  On success `next`
      is the position just after the branch; on failure it is the position of
      the offending token.  The branch read is exactly the one written there
      (sound and complete with respect to `Render`), and the two custom
      lookahead errors are reported where the source reports them. */
  method ParseBranch(toks: seq<Token>, start: nat) returns (r: Result<Branch>, next: nat)
    requires start <= |toks|
    ensures start <= next <= |toks|
    ensures r.Ok? ==> next == start + |Render(r.value)| && toks[start..next] == Render(r.value)
    ensures r.Err? ==> next == r.error.at
    ensures r.Ok? ==> IsBranchStart(toks[start])
    ensures forall b :: WrittenAt(toks, start, b) ==> r == Ok(b) && next == start + |Render(b)|
    ensures (start == |toks| || !IsBranchStart(toks[start])) ==> r == Err(ParseError(start, BranchStart))
    ensures Peek(toks, start) == Some(Word(KwF)) && r.Ok? ==> r.value.Sourced? && r.value.sourced.kind == Future
    ensures Peek(toks, start) == Some(Word(KwS)) && r.Ok? ==> r.value.Sourced? && r.value.sourced.kind == Stream
    ensures Peek(toks, start) == Some(AtSign) && r.Ok? ==>
              r.value.Hook? && (r.value.hook.kind == Before <==> toks[start + 1] == Word(KwBefore))
    ensures (Peek(toks, start) == Some(AtSign) && Peek(toks, start + 1) != Some(Word(KwBefore)) &&
             Peek(toks, start + 1) != Some(Word(KwAfter))) ==> r == Err(ParseError(start + 1, HookWord))
    ensures Peek(toks, start) == Some(AtSign) ==> HookErrors(toks, start, r)
    ensures (Peek(toks, start) == Some(Word(KwF)) || Peek(toks, start) == Some(Word(KwS))) ==>
              SourcedErrors(toks, start, r)
  {
    WrittenAtReads(toks, start);
    if Peek(toks, start) == Some(Word(KwF)) {
      r, next := ParseSourced(toks, start, Future);
    } else if Peek(toks, start) == Some(Word(KwS)) {
      r, next := ParseSourced(toks, start, Stream);
    } else if Peek(toks, start) == Some(AtSign) {
      r, next := ParseHook(toks, start);
    } else {
      r, next := Err(ParseError(start, BranchStart)), start;
    }
  }

  /** The `@` arm of `Branch::parse`: `@before => body` or `@after => body`. */
  method ParseHook(toks: seq<Token>, start: nat) returns (r: Result<Branch>, next: nat)
    requires start < |toks| && toks[start] == AtSign
    ensures start <= next <= |toks|
    ensures r.Ok? ==> r.value.Hook? && next == start + |Render(r.value)| && toks[start..next] == Render(r.value)
    ensures r.Err? ==> next == r.error.at
    ensures forall b :: WrittenAt(toks, start, b) ==> r == Ok(b) && next == start + |Render(b)|
    ensures r.Ok? ==> (r.value.hook.kind == Before <==> toks[start + 1] == Word(KwBefore))
    ensures (Peek(toks, start + 1) != Some(Word(KwBefore)) && Peek(toks, start + 1) != Some(Word(KwAfter))) ==>
              r == Err(ParseError(start + 1, HookWord))
    ensures HookErrors(toks, start, r)
  {
    WrittenAtReads(toks, start);
    var pos := start + 1;
    var kind: HookKind;
    if Peek(toks, pos) == Some(Word(KwBefore)) {
      pos := pos + 1;
      kind := Before;
    } else if Peek(toks, pos) == Some(Word(KwAfter)) {
      pos := pos + 1;
      kind := After;
    } else {
      return Err(ParseError(pos, HookWord)), pos;
    }
    if Peek(toks, pos) != Some(FatArrow) {
      return Err(ParseError(pos, FatArrowToken)), pos;
    }
    pos := pos + 1;
    var body := ExprAt(toks, pos);
    if body.None? {
      return Err(ParseError(pos, Expression)), pos;
    }
    pos := pos + 1;
    r, next := Ok(Hook(HookBranch(kind, body.value))), pos;
  }

  /** The `F`/`S` arm of `Branch::parse`: the keyword, then `source => |item| body`. */
  method ParseSourced(toks: seq<Token>, start: nat, kind: SourceKind) returns (r: Result<Branch>, next: nat)
    requires start < |toks| && toks[start] == Word(KindKeyword(kind))
    ensures start <= next <= |toks|
    ensures r.Ok? ==> r.value.Sourced? && r.value.sourced.kind == kind
    ensures r.Ok? ==> next == start + |Render(r.value)| && toks[start..next] == Render(r.value)
    ensures r.Err? ==> next == r.error.at
    ensures forall b :: WrittenAt(toks, start, b) ==> r == Ok(b) && next == start + |Render(b)|
    ensures SourcedErrors(toks, start, r)
  {
    WrittenAtReads(toks, start);
    var pos := start + 1;
    var source := ExprAt(toks, pos);
    if source.None? {
      return Err(ParseError(pos, Expression)), pos;
    }
    pos := pos + 1;
    if Peek(toks, pos) != Some(FatArrow) {
      return Err(ParseError(pos, FatArrowToken)), pos;
    }
    pos := pos + 1;
    if Peek(toks, pos) != Some(Pipe) {
      return Err(ParseError(pos, PipeToken)), pos;
    }
    pos := pos + 1;
    var item := IdentAt(toks, pos);
    if item.None? {
      return Err(ParseError(pos, Identifier)), pos;
    }
    pos := pos + 1;
    if Peek(toks, pos) != Some(Pipe) {
      return Err(ParseError(pos, PipeToken)), pos;
    }
    pos := pos + 1;
    var body := ExprAt(toks, pos);
    if body.None? {
      return Err(ParseError(pos, Expression)), pos;
    }
    pos := pos + 1;
    var b := Sourced(SourcedBranch(kind, source.value, item.value, body.value));
    assert toks[start..pos] == Render(b) by {
      assert toks[start..pos] == [toks[start], toks[start + 1], toks[start + 2], toks[start + 3],
                                  toks[start + 4], toks[start + 5], toks[start + 6]];
    }
    r, next := Ok(b), pos;
  }

  /** What follows branch `k` in the tokens `RenderList(bs, trailing)`. */
  function Rest(bs: seq<Branch>, k: nat, trailing: bool): seq<Token>
    requires k < |bs|
  {
    if k + 1 == |bs| then (if trailing then [Comma] else [])
    else [Comma] + RenderFrom(bs, k + 1, trailing)
  }

  /** Each branch followed by its comma: what the list loop has consumed so far. */
  function Terminated(bs: seq<Branch>): seq<Token>
    decreases |bs|
  {
    if bs == [] then [] else Render(bs[0]) + [Comma] + Terminated(bs[1..])
  }

  lemma {:induction false} TerminatedAppend(bs: seq<Branch>, b: Branch)
    ensures Terminated(bs + [b]) == Terminated(bs) + Render(b) + [Comma]
    decreases |bs|
  {
    if bs != [] {
      assert (bs + [b])[1..] == bs[1..] + [b];
      TerminatedAppend(bs[1..], b);
    }
  }

  /** Terminating every branch with a comma writes the list with a trailing comma. */
  lemma {:induction false} TerminatedIsTrailing(bs: seq<Branch>, k: nat)
    requires k < |bs|
    ensures Terminated(bs[k..]) == RenderFrom(bs, k, true)
    decreases |bs| - k
  {
    if k + 1 < |bs| {
      assert bs[k..][1..] == bs[k + 1..];
      TerminatedIsTrailing(bs, k + 1);
    }
  }

  /** A list without trailing comma is the terminated prefix and the last branch. */
  lemma {:induction false} RenderListLast(bs: seq<Branch>, b: Branch, k: nat)
    requires k <= |bs|
    ensures RenderFrom(bs + [b], k, false) == Terminated(bs[k..]) + Render(b)
    decreases |bs| - k
  {
    if k < |bs| {
      assert bs[k..][1..] == bs[k + 1..];
      RenderListLast(bs, b, k + 1);
    }
  }

  /** Reading a list from position `pos` where branch `k` of `bs` begins. */
  lemma ListHead(toks: seq<Token>, pos: nat, bs: seq<Branch>, k: nat, trailing: bool)
    requires k < |bs| && pos <= |toks| && toks[pos..] == RenderFrom(bs, k, trailing)
    ensures WrittenAt(toks, pos, bs[k])
    ensures pos + |Render(bs[k])| <= |toks| && toks[pos + |Render(bs[k])|..] == Rest(bs, k, trailing)
  {
    var n := |Render(bs[k])|;
    assert toks[pos..] == Render(bs[k]) + Rest(bs, k, trailing);
    forall i | 0 <= i < n ensures toks[pos + i] == Render(bs[k])[i] {
      assert toks[pos..][i] == toks[pos + i];
    }
    assert toks[pos + n..] == toks[pos..][n..];
  }

  /** While reading `toks`, which is `RenderList(bs, trailing)`: the branches
      read so far are a prefix of `bs`, and the cursor sits where the next one is written. */
  ghost predicate Tracks(toks: seq<Token>, pos: nat, read: seq<Branch>, bs: seq<Branch>, trailing: bool) {
    && pos <= |toks|
    && |read| <= |bs| && read == bs[..|read|]
    && (pos == |toks| ==> read == bs)
    && (pos < |toks| ==>
          && |read| < |bs|
          && WrittenAt(toks, pos, bs[|read|])
          && pos + |Render(bs[|read|])| <= |toks|
          && toks[pos + |Render(bs[|read|])|..] == Rest(bs, |read|, trailing))
  }

  lemma PrefixExtend(read: seq<Branch>, b: Branch, bs: seq<Branch>)
    requires |read| < |bs| && read == bs[..|read|] && b == bs[|read|]
    ensures read + [b] == bs[..|read| + 1]
    ensures |read| + 1 == |bs| ==> read + [b] == bs
  {
  }

  /** Reading branch `b` and its comma keeps the cursor on the list `bs`. */
  lemma TracksStep(toks: seq<Token>, at: nat, read: seq<Branch>, b: Branch, bs: seq<Branch>, trailing: bool)
    requires Tracks(toks, at, read, bs, trailing) && at < |toks|
    requires b == bs[|read|]
    requires at + |Render(b)| < |toks| && toks[at + |Render(b)|] == Comma
    ensures Tracks(toks, at + |Render(b)| + 1, read + [b], bs, trailing)
  {
    var k, next := |read|, at + |Render(b)|;
    var pos := next + 1;
    PrefixExtend(read, b, bs);
    if k + 1 < |bs| {
      assert toks[pos..] == toks[next..][1..];
      if pos < |toks| {
        ListHead(toks, pos, bs, k + 1, trailing);
      }
    }
  }

  /** What `Select::parse` promises about its result `r` for the input `toks`. */
  ghost predicate SelectResult(toks: seq<Token>, r: Result<seq<Branch>>) {
    && (r.Ok? ==> toks == RenderList(r.value, false) || toks == RenderList(r.value, true))
    && (forall bs, trailing :: toks == RenderList(bs, trailing) ==> r == Ok(bs))
    && ((|toks| > 0 && !IsBranchStart(toks[0])) ==> r == Err(ParseError(0, BranchStart)))
  }

  /** The state of the list loop after reading the branches `read` and their
      commas up to position `pos`. */
  ghost predicate ListLoop(toks: seq<Token>, pos: nat, read: seq<Branch>) {
    && pos <= |toks|
    && toks[..pos] == Terminated(read)
    && (pos == 0 ==> read == [])
    && ((|toks| > 0 && !IsBranchStart(toks[0])) ==> pos == 0)
    && (forall bs, trailing :: toks == RenderList(bs, trailing) ==> Tracks(toks, pos, read, bs, trailing))
  }

  /** The outcome of one round of the list loop. */
  datatype Round = Finished(result: Result<seq<Branch>>) | Next(pos: nat, read: seq<Branch>)

  /** Where the list loop would end up if the input were a list `bs`: branch
      `b` is its next branch and `next` is where that branch ends. */
  ghost predicate ReadsNext(toks: seq<Token>, read: seq<Branch>, b: Branch, next: nat) {
    forall bs, trailing :: toks == RenderList(bs, trailing) ==>
      |read| < |bs| && b == bs[|read|] && next <= |toks| && toks[next..] == Rest(bs, |read|, trailing)
  }

  /** A round that reads the last branch finishes with every branch read. */
  lemma RoundAtEnd(toks: seq<Token>, pos: nat, read: seq<Branch>, b: Branch)
    requires pos < |toks| && ListLoop(toks, pos, read)
    requires pos + |Render(b)| == |toks| && toks[pos..] == Render(b)
    requires ReadsNext(toks, read, b, |toks|)
    ensures SelectResult(toks, Ok(read + [b]))
  {
    assert toks == toks[..pos] + toks[pos..];
    RenderListLast(read, b, 0);
    forall bs, trailing | toks == RenderList(bs, trailing) ensures read + [b] == bs {
      PrefixExtend(read, b, bs);
    }
  }

  /** A branch of a list that is not followed by the end of the input is followed by a comma. */
  lemma CommaMissing(toks: seq<Token>, pos: nat, read: seq<Branch>, b: Branch)
    requires pos < |toks| && ListLoop(toks, pos, read)
    requires IsBranchStart(toks[pos])
    requires pos + |Render(b)| < |toks| && toks[pos + |Render(b)|] != Comma
    requires ReadsNext(toks, read, b, pos + |Render(b)|)
    ensures SelectResult(toks, Err(ParseError(pos + |Render(b)|, CommaToken)))
  {
    var next := pos + |Render(b)|;
    assert toks[next..][0] == toks[next];
  }

  /** A round that reads a branch and its comma leaves the loop ready for the next one. */
  lemma RoundOnComma(toks: seq<Token>, pos: nat, read: seq<Branch>, b: Branch)
    requires pos < |toks| && ListLoop(toks, pos, read)
    requires pos + |Render(b)| < |toks| && toks[pos..pos + |Render(b)|] == Render(b)
    requires toks[pos + |Render(b)|] == Comma
    requires ReadsNext(toks, read, b, pos + |Render(b)|)
    ensures ListLoop(toks, pos + |Render(b)| + 1, read + [b])
  {
    var next := pos + |Render(b)|;
    assert toks[..next + 1] == toks[..pos] + toks[pos..next] + [Comma];
    TerminatedAppend(read, b);
    forall bs, trailing | toks == RenderList(bs, trailing) ensures Tracks(toks, next + 1, read + [b], bs, trailing) {
      TracksStep(toks, pos, read, b, bs, trailing);
    }
  }

  /** Where the list loop stands, the branch read there is the next branch of any list `toks` spells. */
  lemma BranchIsNext(toks: seq<Token>, pos: nat, read: seq<Branch>, b: Branch)
    requires pos < |toks| && ListLoop(toks, pos, read)
    requires forall b' :: WrittenAt(toks, pos, b') ==> b' == b
    ensures ReadsNext(toks, read, b, pos + |Render(b)|)
  {
  }

  /** A round that fails to read a branch, or its comma, ends the list with that error. */
  lemma RoundFails(toks: seq<Token>, pos: nat, read: seq<Branch>, e: ParseError)
    requires pos < |toks| && ListLoop(toks, pos, read)
    requires forall bs, trailing :: toks == RenderList(bs, trailing) ==> !WrittenAt(toks, pos, bs[|read|])
    requires (pos == 0 && !IsBranchStart(toks[0])) ==> e == ParseError(0, BranchStart)
    ensures SelectResult(toks, Err(e))
  {
  }

  /** The rest of a round once branch `b` is read up to `next`: the end of the
      input finishes the list, a comma continues it, anything else is an error. */
  method FinishRound(toks: seq<Token>, pos: nat, read: seq<Branch>, b: Branch, next: nat) returns (round: Round)
    requires pos < |toks| && ListLoop(toks, pos, read) && IsBranchStart(toks[pos])
    requires next == pos + |Render(b)| <= |toks| && toks[pos..next] == Render(b)
    requires ReadsNext(toks, read, b, next)
    ensures round.Finished? ==> SelectResult(toks, round.result)
    ensures round.Next? ==> pos < round.pos && ListLoop(toks, round.pos, round.read)
  {
    if next == |toks| {
      RoundAtEnd(toks, pos, read, b);
      return Finished(Ok(read + [b]));
    }
    if toks[next] != Comma {
      CommaMissing(toks, pos, read, b);
      return Finished(Err(ParseError(next, CommaToken)));
    }
    RoundOnComma(toks, pos, read, b);
    round := Next(next + 1, read + [b]);
  }

  /** One round of `parse_terminated`: a branch, then the end of the input or a comma. */
  method ParseRound(toks: seq<Token>, pos: nat, read: seq<Branch>) returns (round: Round)
    requires pos < |toks| && ListLoop(toks, pos, read)
    ensures round.Finished? ==> SelectResult(toks, round.result)
    ensures round.Next? ==> pos < round.pos && ListLoop(toks, round.pos, round.read)
  {
    var b, next := ParseBranch(toks, pos);
    if b.Err? {
      RoundFails(toks, pos, read, b.error);
      return Finished(Err(b.error));
    }
    BranchIsNext(toks, pos, read, b.value);
    round := FinishRound(toks, pos, read, b.value, next);
  }

  /** `Select::parse`: the branches of a comma-separated list, read as syn's
      `parse_terminated` reads them (the input may be empty and may end with a
      comma).  The input is accepted exactly when it is such a list, and then
      the branches returned are the ones written; an input that does not open
      with `F`, `S` or `@` is rejected with the custom message. */
  method ParseSelect(toks: seq<Token>) returns (r: Result<seq<Branch>>)
    ensures r.Ok? ==> toks == RenderList(r.value, false) || toks == RenderList(r.value, true)
    ensures forall bs, trailing :: toks == RenderList(bs, trailing) ==> r == Ok(bs)
    ensures (|toks| > 0 && !IsBranchStart(toks[0])) ==> r == Err(ParseError(0, BranchStart))
  {
    var branches: seq<Branch> := [];
    var pos := 0;
    forall bs, trailing | toks == RenderList(bs, trailing) ensures Tracks(toks, pos, branches, bs, trailing) {
      if bs != [] {
        ListHead(toks, 0, bs, 0, trailing);
      }
    }
    while pos < |toks|
      invariant ListLoop(toks, pos, branches)
      decreases |toks| - pos
    {
      var round := ParseRound(toks, pos, branches);
      if round.Finished? {
        return round.result;
      }
      pos, branches := round.pos, round.read;
    }
    if branches != [] {
      TerminatedIsTrailing(branches, 0);
    }
    assert toks == toks[..pos];
    r := Ok(branches);
  }
}
