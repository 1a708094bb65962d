/**
 * The parser (tree.go): recursive descent over the lexer's token stream into
 * a tree of seven node kinds.
 *
 * `ParseRec`/`ParseLoop` state what `parseRecurse` returns and where it
 * leaves the lexer; the method `ParseRecurse` drives a `Lexer` object and is
 * proved to do exactly that. The lemmas relate the parser to the token
 * stream: a tree is parsed exactly when the lexer yields that tree's tokens
 * (`Flatten`) followed by the end of input and the tree is shallow enough.
 */
module Tree {
  import opened Wrappers
  import opened Lex

  /** The maximum recursion depth (`depthLimit`). */
  const DepthLimit := 32

  /** The seven node types. Sections carry the nodes between their opening and end tags. */
  datatype Node =
    | ArraySection(name: string, nodes: seq<Node>)
    | IfdefSection(name: string, nodes: seq<Node>)
    | IfndefSection(name: string, nodes: seq<Node>)
    | ObjectSection(name: string, nodes: seq<Node>)
    | Include(name: string)
    | Print(name: string)
    | StringLit(val: string)
  {
    predicate IsSection() {
      ArraySection? || IfdefSection? || IfndefSection? || ObjectSection?
    }
  }

  /** Why a parse fails. */
  datatype ParseError =
    | LexFailure(err: LexError)
    | UnclosedScope(open: Token)
    | UnopenedScope(end: Token)
    | UnmatchedTag(end: Token)
    | DepthLimitExceeded

  /** A parse result together with the tokens not yet read. */
  datatype Parsed = Parsed(result: Result<seq<Node>, ParseError>, rest: seq<Step>)

  /** The token kinds that open a section. */
  predicate Opens(k: TokenKind) {
    k == ArrayTag || k == IfdefTag || k == IfndefTag || k == ObjectTag
  }

  /** The section node an opening token of kind `k` builds. */
  function Section(k: TokenKind, name: string, nodes: seq<Node>): (n: Node)
    requires Opens(k)
    ensures n.IsSection() && n.name == name && n.nodes == nodes
  {
    if k == ArrayTag then ArraySection(name, nodes)
    else if k == IfdefTag then IfdefSection(name, nodes)
    else if k == IfndefTag then IfndefSection(name, nodes)
    else ObjectSection(name, nodes)
  }

  /** The leaf node a token of kind `k` builds. */
  function Leaf(k: TokenKind, val: string): (n: Node)
    requires k == IncludeTag || k == PrintTag || k == StringText
    ensures !n.IsSection()
  {
    if k == IncludeTag then Include(val)
    else if k == PrintTag then Print(val)
    else StringLit(val)
  }

  // ---------------------------------------------------------------------
  // The parser as functions of the token stream
  // ---------------------------------------------------------------------

  /** `parseRecurse`: count one more level of depth, refuse past the limit, then loop. */
  function ParseRec(ts: seq<Step>, tree: seq<Node>, end: Option<Token>, depth: int): (r: Parsed)
    requires IsStream(ts)
    ensures IsStream(r.rest) && |r.rest| <= |ts|
    decreases |ts|, 1
  {
    if depth + 1 > DepthLimit then Parsed(Err(DepthLimitExceeded), ts)
    else ParseLoop(ts, tree, end, depth + 1)
  }

  /**
   * The `for` loop of `parseRecurse` at recursion depth `depth`, with the
   * siblings `tree` so far. The end of input and an error are not consumed:
   * the lexer goes on reporting them.
   */
  function ParseLoop(ts: seq<Step>, tree: seq<Node>, end: Option<Token>, depth: int): (r: Parsed)
    requires IsStream(ts)
    ensures IsStream(r.rest) && |r.rest| <= |ts|
    decreases |ts|, 0
  {
    match ts[0]
    case Fail(e) => Parsed(Err(LexFailure(e)), ts)
    case Eof =>
      if end.Some? then Parsed(Err(UnclosedScope(end.value)), ts)
      else Parsed(Ok(tree), ts)
    case Emit(t) =>
      if t.kind == EndTag then
        if end.None? then Parsed(Err(UnopenedScope(t)), ts[1..])
        else if t.val != end.value.val then Parsed(Err(UnmatchedTag(t)), ts[1..])
        else Parsed(Ok(tree), ts[1..])
      else if Opens(t.kind) then
        var sub := ParseRec(ts[1..], [], Some(t), depth);
        if sub.result.Err? then Parsed(Err(sub.result.error), sub.rest)
        else ParseLoop(sub.rest, tree + [Section(t.kind, t.val, sub.result.value)], end, depth)
      else if t.kind == ChangeDelimTag || t.kind == CommentTag then
        assert false; Parsed(Ok(tree), ts)
      else
        ParseLoop(ts[1..], tree + [Leaf(t.kind, t.val)], end, depth)
  }

  /** `parse`: the whole template at depth 0 with no open section. */
  function Parse(name: string, src: string): Result<seq<Node>, ParseError> {
    ParseRec(Tokens(Init(name, src)), [], None, 0).result
  }

  /** `r` is what is left of `ts` after some of its first tokens. */
  predicate SuffixOf(r: seq<Step>, ts: seq<Step>) {
    |r| <= |ts| && r == ts[|ts| - |r|..]
  }

  /** A suffix of a suffix of `ts` is a suffix of `ts`. */
  lemma {:induction false} SuffixTrans(r: seq<Step>, u: seq<Step>, ts: seq<Step>)
    requires SuffixOf(r, u) && SuffixOf(u, ts)
    ensures SuffixOf(r, ts)
  {
    assert ts[|ts| - |u|..][|u| - |r|..] == ts[|ts| - |r|..];
  }

  /** The parser only reads on: what it leaves is a suffix of the stream it was given. */
  lemma {:induction false} RecSuffix(ts: seq<Step>, tree: seq<Node>, end: Option<Token>, depth: int)
    requires IsStream(ts)
    ensures SuffixOf(ParseRec(ts, tree, end, depth).rest, ts)
    decreases |ts|, 1
  {
    if depth + 1 > DepthLimit {
      assert ts[0..] == ts;
    } else {
      LoopSuffix(ts, tree, end, depth + 1);
    }
  }

  /** `RecSuffix` for the loop. */
  lemma {:induction false} LoopSuffix(ts: seq<Step>, tree: seq<Node>, end: Option<Token>, depth: int)
    requires IsStream(ts)
    ensures SuffixOf(ParseLoop(ts, tree, end, depth).rest, ts)
    decreases |ts|, 0
  {
    var r := ParseLoop(ts, tree, end, depth).rest;
    if !ts[0].Emit? {
      assert ts[0..] == ts;
    } else {
      var t := ts[0].tok;
      assert SuffixOf(ts[1..], ts);
      if t.kind == EndTag {
      } else if Opens(t.kind) {
        var sub := ParseRec(ts[1..], [], Some(t), depth);
        RecSuffix(ts[1..], [], Some(t), depth);
        SuffixTrans(sub.rest, ts[1..], ts);
        if sub.result.Ok? {
          LoopSuffix(sub.rest, tree + [Section(t.kind, t.val, sub.result.value)], end, depth);
          SuffixTrans(r, sub.rest, ts);
        }
      } else {
        LoopSuffix(ts[1..], tree + [Leaf(t.kind, t.val)], end, depth);
        SuffixTrans(r, ts[1..], ts);
      }
    }
  }

  // ---------------------------------------------------------------------
  // The token stream of a tree
  // ---------------------------------------------------------------------

  /** A token without its line number. */
  datatype Lexeme = Lexeme(kind: TokenKind, val: string)

  /** The tokens a node is parsed from: a section's opening tag, its children, its end tag. */
  function FlattenNode(n: Node): seq<Lexeme>
    decreases n
  {
    match n
    case ArraySection(name, ch) => [Lexeme(ArrayTag, name)] + Flatten(ch) + [Lexeme(EndTag, name)]
    case IfdefSection(name, ch) => [Lexeme(IfdefTag, name)] + Flatten(ch) + [Lexeme(EndTag, name)]
    case IfndefSection(name, ch) => [Lexeme(IfndefTag, name)] + Flatten(ch) + [Lexeme(EndTag, name)]
    case ObjectSection(name, ch) => [Lexeme(ObjectTag, name)] + Flatten(ch) + [Lexeme(EndTag, name)]
    case Include(name) => [Lexeme(IncludeTag, name)]
    case Print(name) => [Lexeme(PrintTag, name)]
    case StringLit(val) => [Lexeme(StringText, val)]
  }

  /** The tokens a sibling list is parsed from. */
  function Flatten(ns: seq<Node>): seq<Lexeme>
    decreases ns
  {
    if ns == [] then [] else FlattenNode(ns[0]) + Flatten(ns[1..])
  }

  /** How deeply sections nest in a node. */
  function NodeDepth(n: Node): nat
    decreases n
  {
    if n.IsSection() then 1 + Depth(n.nodes) else 0
  }

  /** How deeply sections nest in a sibling list. */
  function Depth(ns: seq<Node>): nat
    decreases ns
  {
    if ns == [] then 0
    else
      var a, b := NodeDepth(ns[0]), Depth(ns[1..]);
      if a < b then b else a
  }

  /** The end tag that closes the open section, if any. */
  function Closer(end: Option<Token>): seq<Lexeme> {
    if end.None? then [] else [Lexeme(EndTag, end.value.val)]
  }

  /** The stream starts with tokens spelling `ls` (line numbers aside), and more follows. */
  predicate Spells(ts: seq<Step>, ls: seq<Lexeme>)
    decreases ls
  {
    && |ls| < |ts|
    && (ls != [] ==>
          && ts[0].Emit? && Lexeme(ts[0].tok.kind, ts[0].tok.val) == ls[0]
          && Spells(ts[1..], ls[1..]))
  }

  /** The stream starts with tokens spelling `ls`, and `rest` follows them. */
  predicate Reads(ts: seq<Step>, ls: seq<Lexeme>, rest: seq<Step>) {
    Spells(ts, ls) && rest == ts[|ls|..]
  }

  lemma {:induction false} StreamSuffix(ts: seq<Step>, k: int)
    requires IsStream(ts) && 0 <= k < |ts|
    ensures IsStream(ts[k..])
    decreases k
  {
    if k == 0 {
      assert ts[0..] == ts;
    } else {
      StreamSuffix(ts[1..], k - 1);
      assert ts[1..][k - 1..] == ts[k..];
    }
  }

  lemma {:induction false} ReadsSplit(ts: seq<Step>, a: seq<Lexeme>, b: seq<Lexeme>)
    requires Spells(ts, a + b)
    ensures Reads(ts, a, ts[|a|..]) && Reads(ts[|a|..], b, ts[|a + b|..])
    decreases a
  {
    if a == [] {
      assert a + b == b;
      assert ts[0..] == ts;
    } else {
      assert (a + b)[0] == a[0] && (a + b)[1..] == a[1..] + b;
      ReadsSplit(ts[1..], a[1..], b);
      assert ts[1..][|a| - 1..] == ts[|a|..];
      assert ts[1..][|a[1..] + b|..] == ts[|a + b|..];
    }
  }

  lemma {:induction false} ReadsChain(ts: seq<Step>, a: seq<Lexeme>, mid: seq<Step>, b: seq<Lexeme>, rest: seq<Step>)
    requires Reads(ts, a, mid) && Reads(mid, b, rest)
    ensures Reads(ts, a + b, rest)
    decreases a
  {
    if a == [] {
      assert a + b == b;
      assert ts[0..] == ts;
    } else {
      assert ts[1..][|a| - 1..] == ts[|a|..];
      ReadsChain(ts[1..], a[1..], mid, b, rest);
      assert (a + b)[0] == a[0] && (a + b)[1..] == a[1..] + b;
      assert ts[1..][|a[1..] + b|..] == ts[|a + b|..];
    }
  }

  lemma {:induction false} Assoc(a: seq<Lexeme>, b: seq<Lexeme>, c: seq<Lexeme>)
    ensures a + (b + c) == (a + b) + c
  {
  }

  lemma {:induction false} SuffixCons(tree: seq<Node>, x: Node, res: seq<Node>)
    requires tree + [x] <= res
    ensures tree <= res && res[|tree|..] == [x] + res[|tree| + 1..]
  {
    assert res[|tree|] == (tree + [x])[|tree|];
  }

  lemma {:induction false} FlattenCons(x: Node, more: seq<Node>)
    ensures Flatten([x] + more) == FlattenNode(x) + Flatten(more)
    ensures Depth([x] + more) == if NodeDepth(x) < Depth(more) then Depth(more) else NodeDepth(x)
  {
    assert ([x] + more)[1..] == more;
  }

  /** The kind of the tag that opens a section. */
  function Opener(n: Node): (k: TokenKind)
    requires n.IsSection()
    ensures Opens(k) && Section(k, n.name, n.nodes) == n
  {
    match n
    case ArraySection(_, _) => ArrayTag
    case IfdefSection(_, _) => IfdefTag
    case IfndefSection(_, _) => IfndefTag
    case ObjectSection(_, _) => ObjectTag
  }

  lemma {:induction false} FlattenSection(n: Node)
    requires n.IsSection()
    ensures FlattenNode(n) == [Lexeme(Opener(n), n.name)] + Flatten(n.nodes) + [Lexeme(EndTag, n.name)]
    ensures NodeDepth(n) == 1 + Depth(n.nodes)
  {
  }

  lemma {:induction false} FlattenLeaf(k: TokenKind, val: string)
    requires k == IncludeTag || k == PrintTag || k == StringText
    ensures FlattenNode(Leaf(k, val)) == [Lexeme(k, val)] && NodeDepth(Leaf(k, val)) == 0
  {
  }

  // ---------------------------------------------------------------------
  // Single steps of the loop
  // ---------------------------------------------------------------------

  /** The loop over an opening tag whose section parsed to `ch`. */
  lemma {:induction false} OpenStep(toks: seq<Step>, tree: seq<Node>, end: Option<Token>, depth: int, ch: seq<Node>, rest: seq<Step>)
    requires IsStream(toks) && toks[0].Emit? && Opens(toks[0].tok.kind)
    requires ParseRec(toks[1..], [], Some(toks[0].tok), depth) == Parsed(Ok(ch), rest)
    ensures IsStream(rest)
    ensures ParseLoop(toks, tree, end, depth)
         == ParseLoop(rest, tree + [Section(toks[0].tok.kind, toks[0].tok.val, ch)], end, depth)
  {
  }

  /** The loop over a leaf token. */
  lemma {:induction false} LeafStep(toks: seq<Step>, tree: seq<Node>, end: Option<Token>, depth: int)
    requires IsStream(toks) && toks[0].Emit?
    requires var k := toks[0].tok.kind; k == IncludeTag || k == PrintTag || k == StringText
    ensures IsStream(toks[1..])
    ensures ParseLoop(toks, tree, end, depth)
         == ParseLoop(toks[1..], tree + [Leaf(toks[0].tok.kind, toks[0].tok.val)], end, depth)
  {
  }

  /** The loop over the end tag of the open section. */
  lemma {:induction false} CloseStep(toks: seq<Step>, tree: seq<Node>, t: Token, depth: int)
    requires IsStream(toks) && toks[0].Emit? && toks[0].tok.kind == EndTag && toks[0].tok.val == t.val
    ensures ParseLoop(toks, tree, Some(t), depth) == Parsed(Ok(tree), toks[1..])
  {
  }

  // ---------------------------------------------------------------------
  // The parser against the token stream
  // ---------------------------------------------------------------------

  /**
   * Completeness: when the stream spells the tokens of `ts` and sections nest
   * no deeper than the limit allows, the loop appends exactly `ts` to the
   * siblings and goes on after those tokens.
   */
  lemma {:induction false} LoopOverTrees(toks: seq<Step>, tree: seq<Node>, ts: seq<Node>, end: Option<Token>, depth: int)
    requires IsStream(toks) && Spells(toks, Flatten(ts))
    requires depth + Depth(ts) <= DepthLimit
    ensures IsStream(toks[|Flatten(ts)|..])
    ensures ParseLoop(toks, tree, end, depth) == ParseLoop(toks[|Flatten(ts)|..], tree + ts, end, depth)
    decreases ts, 0
  {
    if ts == [] {
      assert tree + ts == tree;
      assert toks[0..] == toks;
    } else {
      var x := ts[0];
      var k := |FlattenNode(x)|;
      assert ts == [x] + ts[1..];
      FlattenCons(x, ts[1..]);
      ReadsSplit(toks, FlattenNode(x), Flatten(ts[1..]));
      LoopOverTree(toks, tree, x, end, depth);
      LoopOverTrees(toks[k..], tree + [x], ts[1..], end, depth);
      assert tree + [x] + ts[1..] == tree + ts;
    }
  }

  /** Completeness for one node: the loop appends `x` after reading its tokens. */
  lemma {:induction false} LoopOverTree(toks: seq<Step>, tree: seq<Node>, x: Node, end: Option<Token>, depth: int)
    requires IsStream(toks) && Spells(toks, FlattenNode(x))
    requires depth + NodeDepth(x) <= DepthLimit
    ensures IsStream(toks[|FlattenNode(x)|..])
    ensures ParseLoop(toks, tree, end, depth) == ParseLoop(toks[|FlattenNode(x)|..], tree + [x], end, depth)
    decreases x, 2
  {
    StreamSuffix(toks, |FlattenNode(x)|);
    if x.IsSection() {
      LoopOverSection(toks, tree, x, end, depth);
    } else {
      var t := toks[0].tok;
      assert x == Leaf(t.kind, t.val) by {
        assert FlattenNode(x)[0] == Lexeme(t.kind, t.val);
      }
      FlattenLeaf(t.kind, t.val);
      LeafStep(toks, tree, end, depth);
    }
  }

  lemma {:induction false} LoopOverSection(toks: seq<Step>, tree: seq<Node>, x: Node, end: Option<Token>, depth: int)
    requires IsStream(toks) && Spells(toks, FlattenNode(x))
    requires x.IsSection() && depth + NodeDepth(x) <= DepthLimit
    requires IsStream(toks[|FlattenNode(x)|..])
    ensures ParseLoop(toks, tree, end, depth) == ParseLoop(toks[|FlattenNode(x)|..], tree + [x], end, depth)
    decreases x, 1
  {
    var t := toks[0].tok;
    SectionParses(toks, x, depth);
    assert t.kind == Opener(x) && t.val == x.name by {
      FlattenSection(x);
      assert FlattenNode(x)[0] == Lexeme(Opener(x), x.name);
    }
    OpenStep(toks, tree, end, depth, x.nodes, toks[|FlattenNode(x)|..]);
  }

  /** The section opened by the first token parses to the children of `x`. */
  lemma {:induction false} SectionParses(toks: seq<Step>, x: Node, depth: int)
    requires IsStream(toks) && Spells(toks, FlattenNode(x))
    requires x.IsSection() && depth + NodeDepth(x) <= DepthLimit
    ensures toks[0].Emit? && IsStream(toks[1..])
    ensures ParseRec(toks[1..], [], Some(toks[0].tok), depth) == Parsed(Ok(x.nodes), toks[|FlattenNode(x)|..])
    decreases x, 0
  {
    SectionTokens(toks, x);
    var inner := toks[1..];
    SectionBody(inner, x.nodes, toks[0].tok, depth);
    assert inner[|Flatten(x.nodes)| + 1..] == toks[|FlattenNode(x)|..];
  }

  /** The children's tokens followed by the matching end tag parse to those children. */
  lemma {:induction false} SectionBody(inner: seq<Step>, ch: seq<Node>, t: Token, depth: int)
    requires IsStream(inner) && Spells(inner, Flatten(ch)) && depth + 1 + Depth(ch) <= DepthLimit
    requires inner[|Flatten(ch)|].Emit?
    requires inner[|Flatten(ch)|].tok.kind == EndTag && inner[|Flatten(ch)|].tok.val == t.val
    ensures ParseRec(inner, [], Some(t), depth) == Parsed(Ok(ch), inner[|Flatten(ch)| + 1..])
    decreases ch, 1
  {
    var m := |Flatten(ch)|;
    RecStep(inner, [], Some(t), depth);
    LoopOverTrees(inner, [], ch, Some(t), depth + 1);
    assert [] + ch == ch;
    CloseStep(inner[m..], ch, t, depth + 1);
    assert inner[m..][1..] == inner[m + 1..];
  }

  /** Below the depth limit, `parseRecurse` goes on to its loop one level deeper. */
  lemma {:induction false} RecStep(ts: seq<Step>, tree: seq<Node>, end: Option<Token>, depth: int)
    requires IsStream(ts) && depth + 1 <= DepthLimit
    ensures ParseRec(ts, tree, end, depth) == ParseLoop(ts, tree, end, depth + 1)
  {
  }

  /** The tokens of a section: its opening tag, its children's tokens, its end tag. */
  lemma {:induction false} SectionTokens(toks: seq<Step>, x: Node)
    requires IsStream(toks) && Spells(toks, FlattenNode(x)) && x.IsSection()
    ensures toks[0].Emit? && toks[0].tok.kind == Opener(x) && toks[0].tok.val == x.name
    ensures IsStream(toks[1..]) && Spells(toks[1..], Flatten(x.nodes))
    ensures |FlattenNode(x)| == |Flatten(x.nodes)| + 2
    ensures toks[1..][|Flatten(x.nodes)|].Emit?
    ensures toks[1..][|Flatten(x.nodes)|].tok.kind == EndTag && toks[1..][|Flatten(x.nodes)|].tok.val == x.name
    ensures NodeDepth(x) == 1 + Depth(x.nodes)
  {
    var f := Flatten(x.nodes);
    var open, close := Lexeme(Opener(x), x.name), Lexeme(EndTag, x.name);
    FlattenSection(x);
    var ls := FlattenNode(x);
    assert ls == [open] + (f + [close]);
    assert ls[0] == open && ls[1..] == f + [close];
    assert Spells(toks[1..], f + [close]);
    ReadsSplit(toks[1..], f, [close]);
    var e := toks[1..][|f|..];
    assert Spells(e, [close]);
    assert e[0] == toks[1..][|f|];
  }

  /**
   * Soundness: when the loop succeeds with siblings `res`, the siblings it
   * added are trees whose tokens the stream spelled, followed by the end tag
   * of the open section (or, at top level, by the end of input), nested
   * within the limit.
   */
  lemma {:induction false} LoopSound(toks: seq<Step>, tree: seq<Node>, end: Option<Token>, depth: int,
                                     res: seq<Node>, rest: seq<Step>)
    requires IsStream(toks) && ParseLoop(toks, tree, end, depth) == Parsed(Ok(res), rest)
    requires depth <= DepthLimit
    ensures tree <= res
    ensures Reads(toks, Flatten(res[|tree|..]) + Closer(end), rest)
    ensures end.None? ==> rest[0] == Eof
    ensures depth + Depth(res[|tree|..]) <= DepthLimit
    decreases |toks|, 2
  {
    if toks[0].Eof? {
      assert res[|tree|..] == [];
      assert toks[0..] == toks;
    } else if toks[0].Emit? {
      var t := toks[0].tok;
      if t.kind == EndTag {
        assert res[|tree|..] == [];
        assert Flatten([]) + Closer(end) == [Lexeme(t.kind, t.val)];
      } else if Opens(t.kind) {
        var sub := ParseRec(toks[1..], [], Some(t), depth);
        LoopSoundOpen(toks, tree, end, depth, res, rest, sub.result.value, sub.rest);
      } else {
        LoopSoundLeaf(toks, tree, end, depth, res, rest);
      }
    }
  }

  lemma {:induction false} LoopSoundOpen(toks: seq<Step>, tree: seq<Node>, end: Option<Token>, depth: int,
                                         res: seq<Node>, rest: seq<Step>, ch: seq<Node>, after: seq<Step>)
    requires IsStream(toks) && ParseLoop(toks, tree, end, depth) == Parsed(Ok(res), rest)
    requires depth <= DepthLimit
    requires toks[0].Emit? && Opens(toks[0].tok.kind)
    requires ParseRec(toks[1..], [], Some(toks[0].tok), depth) == Parsed(Ok(ch), after)
    ensures tree <= res
    ensures Reads(toks, Flatten(res[|tree|..]) + Closer(end), rest)
    ensures end.None? ==> rest[0] == Eof
    ensures depth + Depth(res[|tree|..]) <= DepthLimit
    decreases |toks|, 1
  {
    var t := toks[0].tok;
    var x := Section(t.kind, t.val, ch);
    SectionSound(toks, depth, ch, after);
    OpenStep(toks, tree, end, depth, ch, after);
    LoopSound(after, tree + [x], end, depth, res, rest);
    ConsSound(toks, tree, x, after, end, depth, res, rest);
  }

  /** A section that parsed to `ch` was read from its opening tag, the tokens of `ch` and its end tag. */
  lemma {:induction false} SectionSound(toks: seq<Step>, depth: int, ch: seq<Node>, after: seq<Step>)
    requires IsStream(toks) && toks[0].Emit? && Opens(toks[0].tok.kind)
    requires ParseRec(toks[1..], [], Some(toks[0].tok), depth) == Parsed(Ok(ch), after)
    ensures Reads(toks, FlattenNode(Section(toks[0].tok.kind, toks[0].tok.val, ch)), after)
    ensures depth + NodeDepth(Section(toks[0].tok.kind, toks[0].tok.val, ch)) <= DepthLimit
    decreases |toks|, 0
  {
    var t := toks[0].tok;
    var x := Section(t.kind, t.val, ch);
    StreamSuffix(toks, 1);
    LoopSound(toks[1..], [], Some(t), depth + 1, ch, after);
    assert ch[0..] == ch;
    FlattenSection(x);
    assert Reads(toks, [Lexeme(t.kind, t.val)], toks[1..]);
    ReadsChain(toks, [Lexeme(t.kind, t.val)], toks[1..], Flatten(ch) + Closer(Some(t)), after);
    Assoc([Lexeme(t.kind, t.val)], Flatten(ch), Closer(Some(t)));
  }

  /** Reading `x` and then the rest of the siblings reads all siblings after `tree`. */
  lemma {:induction false} ConsSound(toks: seq<Step>, tree: seq<Node>, x: Node, after: seq<Step>, end: Option<Token>, depth: int,
                  res: seq<Node>, rest: seq<Step>)
    requires Reads(toks, FlattenNode(x), after) && depth + NodeDepth(x) <= DepthLimit
    requires tree + [x] <= res
    requires Reads(after, Flatten(res[|tree + [x]|..]) + Closer(end), rest)
    requires depth + Depth(res[|tree + [x]|..]) <= DepthLimit
    ensures tree <= res
    ensures Reads(toks, Flatten(res[|tree|..]) + Closer(end), rest)
    ensures depth + Depth(res[|tree|..]) <= DepthLimit
  {
    SuffixCons(tree, x, res);
    var more := res[|tree| + 1..];
    FlattenCons(x, more);
    ReadsChain(toks, FlattenNode(x), after, Flatten(more) + Closer(end), rest);
    Assoc(FlattenNode(x), Flatten(more), Closer(end));
  }

  lemma {:induction false} LoopSoundLeaf(toks: seq<Step>, tree: seq<Node>, end: Option<Token>, depth: int,
                                         res: seq<Node>, rest: seq<Step>)
    requires IsStream(toks) && ParseLoop(toks, tree, end, depth) == Parsed(Ok(res), rest)
    requires depth <= DepthLimit
    requires toks[0].Emit? && !Opens(toks[0].tok.kind) && toks[0].tok.kind != EndTag
    ensures tree <= res
    ensures Reads(toks, Flatten(res[|tree|..]) + Closer(end), rest)
    ensures end.None? ==> rest[0] == Eof
    ensures depth + Depth(res[|tree|..]) <= DepthLimit
    decreases |toks|, 0
  {
    var t := toks[0].tok;
    var x := Leaf(t.kind, t.val);
    LeafStep(toks, tree, end, depth);
    LoopSound(toks[1..], tree + [x], end, depth, res, rest);
    FlattenLeaf(t.kind, t.val);
    assert Reads(toks, [Lexeme(t.kind, t.val)], toks[1..]);
    ConsSound(toks, tree, x, toks[1..], end, depth, res, rest);
  }

  /**
   * A template parses to `ts` when its token stream spells the tokens of
   * `ts` followed by the end of input, and sections nest at most 31 deep
   * (the top level already counts as depth 1).
   */
  lemma {:induction false} ParseComplete(name: string, src: string, ts: seq<Node>)
    requires Spells(Tokens(Init(name, src)), Flatten(ts))
    requires Tokens(Init(name, src))[|Flatten(ts)|] == Eof
    requires Depth(ts) < DepthLimit
    ensures Parse(name, src) == Ok(ts)
  {
    LoopOverTrees(Tokens(Init(name, src)), [], ts, None, 1);
    assert [] + ts == ts;
  }

  /** The converse of `ParseComplete`. */
  lemma {:induction false} ParseSound(name: string, src: string)
    requires Parse(name, src).Ok?
    ensures Spells(Tokens(Init(name, src)), Flatten(Parse(name, src).value))
    ensures Tokens(Init(name, src))[|Flatten(Parse(name, src).value)|] == Eof
    ensures Depth(Parse(name, src).value) < DepthLimit
  {
    var toks := Tokens(Init(name, src));
    var r := ParseLoop(toks, [], None, 1);
    LoopSound(toks, [], None, 1, r.result.value, r.rest);
    var ts := Parse(name, src).value;
    assert ts[0..] == ts;
    assert Flatten(ts) + Closer(None) == Flatten(ts);
  }

  /** The stream from `st` spells `l` and then whatever the stream after it spells. */
  lemma {:induction false} SpellsStep(st: LexState, l: Lexeme, ls: seq<Lexeme>)
    requires WellFormed(st) && NextToken(st).step.Emit?
    requires Lexeme(NextToken(st).step.tok.kind, NextToken(st).step.tok.val) == l
    requires Spells(Tokens(NextToken(st).st), ls) && Tokens(NextToken(st).st)[|ls|] == Eof
    ensures Spells(Tokens(st), [l] + ls) && Tokens(st)[|ls| + 1] == Eof
  {
    TokensCons(st);
    assert ([l] + ls)[1..] == ls;
  }

  /** The token stream of `y{{/n}}z` from any state with the default delimiters. */
  lemma {:induction false} EndTokens(st: LexState, n: string, y: string, z: string)
    requires st.ldel == DefaultLeft && st.rdel == DefaultRight && st.src == y + "{{/" + n + "}}" + z
    requires y != [] && z != [] && '{' !in y && '{' !in z && '}' !in n
    ensures Spells(Tokens(st), [Lexeme(StringText, y), Lexeme(EndTag, n), Lexeme(StringText, z)])
    ensures Tokens(st)[3] == Eof
  {
    var r3 := "{{" + ['/'] + n + "}}" + z;
    assert st.src == y + r3;
    TextStep(st, y, r3);
    var st3 := NextToken(st).st;
    assert TagKind('/') == Some(EndTag);
    TagStep(st3, '/', n, z);
    var st4 := NextToken(st3).st;
    TextStep(st4, z, []);
    assert Tokens(NextToken(st4).st) == [Eof];
    var l2, l3, l4 := Lexeme(StringText, y), Lexeme(EndTag, n), Lexeme(StringText, z);
    SpellsStep(st4, l4, []);
    assert [l4] + [] == [l4];
    SpellsStep(st3, l3, [l4]);
    assert [l3] + [l4] == [l3, l4];
    SpellsStep(st, l2, [l3, l4]);
    assert [l2] + [l3, l4] == [l2, l3, l4];
  }

  /** The first two steps through `x{{+n}}` followed by `rest`. */
  lemma {:induction false} IfdefHead(st: LexState, x: string, n: string, rest: string)
    requires st.ldel == DefaultLeft && st.rdel == DefaultRight && st.src == x + "{{+" + n + "}}" + rest
    requires x != [] && '{' !in x && '}' !in n
    ensures NextToken(st).step.Emit? && Lexeme(NextToken(st).step.tok.kind, NextToken(st).step.tok.val) == Lexeme(StringText, x)
    ensures var st1 := NextToken(st).st;
            && NextToken(st1).step.Emit? && Lexeme(NextToken(st1).step.tok.kind, NextToken(st1).step.tok.val) == Lexeme(IfdefTag, n)
            && NextToken(st1).st.ldel == DefaultLeft && NextToken(st1).st.rdel == DefaultRight
            && NextToken(st1).st.src == rest
  {
    var r1 := "{{" + ['+'] + n + "}}" + rest;
    assert st.src == x + r1;
    TextStep(st, x, r1);
    assert TagKind('+') == Some(IfdefTag);
    TagStep(NextToken(st).st, '+', n, rest);
  }

  /** The token stream of `x{{+n}}y{{/n}}z`. */
  lemma {:induction false} IfdefTokens(x: string, n: string, y: string, z: string)
    requires x != [] && y != [] && z != []
    requires '{' !in x && '{' !in y && '{' !in z && '}' !in n
    ensures var ls := [Lexeme(StringText, x), Lexeme(IfdefTag, n), Lexeme(StringText, y),
                       Lexeme(EndTag, n), Lexeme(StringText, z)];
            var ts := Tokens(Init("", x + "{{+" + n + "}}" + y + "{{/" + n + "}}" + z));
            Spells(ts, ls) && ts[5] == Eof
  {
    var r2 := y + "{{/" + n + "}}" + z;
    var st0 := Init("", x + "{{+" + n + "}}" + r2);
    assert st0 == Init("", x + "{{+" + n + "}}" + y + "{{/" + n + "}}" + z);
    IfdefTokensFrom(st0, x, n, y, z);
  }

  /** `IfdefTokens` from any state with the default delimiters. */
  lemma {:induction false} IfdefTokensFrom(st0: LexState, x: string, n: string, y: string, z: string)
    requires st0.ldel == DefaultLeft && st0.rdel == DefaultRight
    requires st0.src == x + "{{+" + n + "}}" + (y + "{{/" + n + "}}" + z)
    requires x != [] && y != [] && z != []
    requires '{' !in x && '{' !in y && '{' !in z && '}' !in n
    ensures var ls := [Lexeme(StringText, x), Lexeme(IfdefTag, n), Lexeme(StringText, y),
                       Lexeme(EndTag, n), Lexeme(StringText, z)];
            var ts := Tokens(st0);
            Spells(ts, ls) && ts[5] == Eof
  {
    IfdefHead(st0, x, n, y + "{{/" + n + "}}" + z);
    var st1 := NextToken(st0).st;
    EndTokens(NextToken(st1).st, n, y, z);
    var l0, l1, l2, l3, l4 := Lexeme(StringText, x), Lexeme(IfdefTag, n), Lexeme(StringText, y), Lexeme(EndTag, n), Lexeme(StringText, z);
    SpellsStep(st1, l1, [l2, l3, l4]);
    assert [l1] + [l2, l3, l4] == [l1, l2, l3, l4];
    SpellsStep(st0, l0, [l1, l2, l3, l4]);
    assert [l0] + [l1, l2, l3, l4] == [l0, l1, l2, l3, l4];
  }

  /** The tokens of the tree `x`, ifdef `n` around `y`, `z`, and its depth. */
  lemma {:induction false} IfdefTree(x: string, n: string, y: string, z: string)
    ensures var ts := [StringLit(x), IfdefSection(n, [StringLit(y)]), StringLit(z)];
            && Flatten(ts) == [Lexeme(StringText, x), Lexeme(IfdefTag, n), Lexeme(StringText, y),
                               Lexeme(EndTag, n), Lexeme(StringText, z)]
            && Depth(ts) == 1
  {
    var body := [StringLit(y)];
    assert body == [StringLit(y)] + [];
    FlattenCons(StringLit(y), []);
    var t3 := [StringLit(z)];
    assert t3 == [StringLit(z)] + [];
    FlattenCons(StringLit(z), []);
    var t2 := [IfdefSection(n, body)] + t3;
    FlattenCons(IfdefSection(n, body), t3);
    var t1 := [StringLit(x)] + t2;
    FlattenCons(StringLit(x), t2);
    assert t1 == [StringLit(x), IfdefSection(n, [StringLit(y)]), StringLit(z)];
  }

  /**
   * With the default delimiters, `x{{+n}}y{{/n}}z` is a literal, an ifdef
   * section on `n` around a literal, and a literal, whenever the literals hold
   * no `{` and the name no `}` (template_test.go has `0{{+a}}1{{/a}}2`).
   */
  lemma {:induction false} ParseIfdefExample(x: string, n: string, y: string, z: string)
    requires x != [] && y != [] && z != []
    requires '{' !in x && '{' !in y && '{' !in z && '}' !in n
    ensures Parse("", x + "{{+" + n + "}}" + y + "{{/" + n + "}}" + z)
            == Ok([StringLit(x), IfdefSection(n, [StringLit(y)]), StringLit(z)])
  {
    IfdefTokens(x, n, y, z);
    IfdefTree(x, n, y, z);
    ParseComplete("", x + "{{+" + n + "}}" + y + "{{/" + n + "}}" + z,
                  [StringLit(x), IfdefSection(n, [StringLit(y)]), StringLit(z)]);
  }

  /** A template that is only a comment parses to no nodes at all (tree_test.go). */
  lemma {:induction false} CommentOnlyExample(c: string)
    requires '}' !in c
    ensures Parse("", "{{!" + c + "}}") == Ok([])
  {
    var src := "{{!" + c + "}}";
    var st := Init("", src);
    assert src == DefaultLeft + ['!'] + c + DefaultRight;
    CommentOnlyTokens(st, c);
    EofParses();
  }

  /** The end of input alone parses to no nodes. */
  lemma {:induction false} EofParses()
    ensures ParseRec([Eof], [], None, 0) == Parsed(Ok([]), [Eof])
  {
  }

  /**
   * After the tokens of `ts`, the next token decides how the loop stops: a
   * lexer error is passed on, the end of input closes the top level but not
   * a section, and an end tag closes the open section only when its name
   * matches.
   */
  lemma {:induction false} LoopStops(toks: seq<Step>, tree: seq<Node>, ts: seq<Node>, end: Option<Token>, depth: int)
    requires IsStream(toks) && Spells(toks, Flatten(ts))
    requires depth + Depth(ts) <= DepthLimit
    ensures var n := toks[|Flatten(ts)|]; var r := ParseLoop(toks, tree, end, depth).result;
      && (n.Fail? ==> r == Err(LexFailure(n.err)))
      && (n.Eof? ==> r == if end.None? then Ok(tree + ts) else Err(UnclosedScope(end.value)))
      && (n.Emit? && n.tok.kind == EndTag ==>
            r == if end.None? then Err(UnopenedScope(n.tok))
                 else if n.tok.val != end.value.val then Err(UnmatchedTag(n.tok))
                 else Ok(tree + ts))
  {
    LoopOverTrees(toks, tree, ts, end, depth);
  }

  /** Section openings nested past the limit fail, whatever follows them. */
  lemma {:induction false} DepthExceeded(toks: seq<Step>, tree: seq<Node>, end: Option<Token>, depth: int, k: nat)
    requires IsStream(toks) && k < |toks|
    requires forall i :: 0 <= i < k ==> toks[i].Emit? && Opens(toks[i].tok.kind)
    requires depth + k >= DepthLimit
    ensures ParseRec(toks, tree, end, depth).result == Err(DepthLimitExceeded)
    decreases k
  {
    if depth + 1 <= DepthLimit {
      DepthExceeded(toks[1..], [], Some(toks[0].tok), depth + 1, k - 1);
    }
  }

  // ---------------------------------------------------------------------
  // The parser over a lexer object
  // ---------------------------------------------------------------------

  /** `parseRecurse`: reads tokens from `l` until the section closes or the input ends. */
  method ParseRecurse(tree: seq<Node>, l: Lexer, end: Option<Token>, depth: int)
    returns (r: Result<seq<Node>, ParseError>)
    requires l.Valid()
    modifies l
    ensures l.Valid() && |l.src| <= |old(l.src)|
    ensures r == ParseRec(Tokens(old(l.State())), tree, end, depth).result
    ensures r.Ok? ==> Tokens(l.State()) == ParseRec(Tokens(old(l.State())), tree, end, depth).rest
    decreases |l.src|, 1
  {
    var d := depth + 1;
    if d > DepthLimit {
      return Err(DepthLimitExceeded);
    }
    var acc := tree;
    while true
      invariant l.Valid() && |l.src| <= |old(l.src)|
      invariant ParseLoop(Tokens(l.State()), acc, end, d) == ParseRec(Tokens(old(l.State())), tree, end, depth)
      decreases |l.src|
    {
      ghost var before := l.State();
      var t := l.Next();
      match t {
        case Fail(e) =>
          return Err(LexFailure(e));
        case Eof =>
          EofStays(before);
          if end.Some? {
            return Err(UnclosedScope(end.value));
          }
          return Ok(acc);
        case Emit(tok) =>
          if tok.kind == EndTag {
            if end.None? {
              return Err(UnopenedScope(tok));
            }
            if tok.val != end.value.val {
              return Err(UnmatchedTag(tok));
            }
            return Ok(acc);
          } else if Opens(tok.kind) {
            var nodes := ParseRecurse([], l, Some(tok), d);
            if nodes.Err? {
              return Err(nodes.error);
            }
            acc := acc + [Section(tok.kind, tok.val, nodes.value)];
          } else {
            acc := acc + [Leaf(tok.kind, tok.val)];
          }
      }
    }
  }

  /** `parse`: a fresh lexer over the template, at depth 0 with no open section. */
  method ParseTemplate(name: string, src: string) returns (r: Result<seq<Node>, ParseError>)
    ensures r == Parse(name, src)
  {
    var l := new Lexer(name, src);
    r := ParseRecurse([], l, None, 0);
  }
}
