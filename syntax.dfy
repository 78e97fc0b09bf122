/** The input language of the `select_loop!` macro: its tokens, the branch
    records the parser builds from them, and the printer `Render` that writes a
    branch back as tokens.  Expressions and identifiers are opaque: the only
    thing the macro does with them is move them into the generated code. */
module Syntax {

  datatype Option<T> = None | Some(value: T)

  /** A token of the macro input.  `Word` is any identifier, including the
      contextual keywords `F`, `S`, `before` and `after`; `Group` is a compound
      expression (a block, a call, a literal) treated as one opaque token;
      `Other` is any punctuation the grammar does not use. */
  datatype Token =
    | Word(name: string)
    | AtSign
    | FatArrow
    | Pipe
    | Comma
    | Group(id: nat)
    | Other(id: nat)

  /** An expression: a bare identifier is a path expression, anything else is opaque. */
  datatype Expr = PathExpr(name: string) | GroupExpr(id: nat)

  datatype SourceKind = Future | Stream

  datatype HookKind = Before | After

  /** `F source => |item| body` or `S source => |item| body`. */
  datatype SourcedBranch = SourcedBranch(kind: SourceKind, source: Expr, item: string, body: Expr)

  /** `@before => body` or `@after => body`. */
  datatype HookBranch = HookBranch(kind: HookKind, body: Expr)

  datatype Branch = Sourced(sourced: SourcedBranch) | Hook(hook: HookBranch)

  const KwF := "F"
  const KwS := "S"
  const KwBefore := "before"
  const KwAfter := "after"

  /** The single token an expression is written as. */
  function RenderExpr(e: Expr): Token {
    match e
    case PathExpr(n) => Word(n)
    case GroupExpr(id) => Group(id)
  }

  function KindKeyword(k: SourceKind): string {
    if k == Future then KwF else KwS
  }

  function HookKeyword(k: HookKind): string {
    if k == Before then KwBefore else KwAfter
  }

  /** The tokens a branch is written as: the grammar the parser accepts. */
  function Render(b: Branch): (t: seq<Token>)
    ensures |t| == if b.Sourced? then 7 else 4
    ensures t[0] == Word(KwF) || t[0] == Word(KwS) || t[0] == AtSign
  {
    match b
    case Sourced(s) =>
      [Word(KindKeyword(s.kind)), RenderExpr(s.source), FatArrow, Pipe, Word(s.item), Pipe, RenderExpr(s.body)]
    case Hook(h) =>
      [AtSign, Word(HookKeyword(h.kind)), FatArrow, RenderExpr(h.body)]
  }

  /** The tokens of a comma-separated branch list, with an optional trailing comma. */
  function RenderList(bs: seq<Branch>, trailing: bool): seq<Token> {
    RenderFrom(bs, 0, trailing)
  }

  /** The tokens of the list from branch `k` on. */
  function RenderFrom(bs: seq<Branch>, k: nat, trailing: bool): seq<Token>
    requires k <= |bs|
    decreases |bs| - k
  {
    if k == |bs| then []
    else Render(bs[k]) + (if k + 1 == |bs| then (if trailing then [Comma] else [])
                          else [Comma] + RenderFrom(bs, k + 1, trailing))
  }

  /** The branch `b` is written at position `start` of `toks`. */
  ghost predicate WrittenAt(toks: seq<Token>, start: nat, b: Branch) {
    start + |Render(b)| <= |toks| &&
    forall i :: 0 <= i < |Render(b)| ==> toks[start + i] == Render(b)[i]
  }
}
