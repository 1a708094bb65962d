/**
 * The lexer (lex.go): a cursor over the remaining template text with a line
 * counter and left/right delimiters that a `{{=L R}}` tag can change while
 * lexing.
 *
 * The step functions (`StringToken`, `TagToken`, `RawToken`, `NextToken`)
 * state what one call does to the lexer state; the `Lexer` class holds the
 * same state in mutable fields, and its methods are proved to perform exactly
 * those steps.
 */
module Lex {
  import opened Wrappers

  /** Token types (`ttype`). `ChangeDelimTag` and `CommentTag` never leave `Next`. */
  datatype TokenKind =
    | ArrayTag
    | ChangeDelimTag
    | CommentTag
    | EndTag
    | IfdefTag
    | IfndefTag
    | IncludeTag
    | ObjectTag
    | PrintTag
    | StringText

  /** A token: its type, its value (a name or literal text) and the line it starts on. */
  datatype Token = Token(kind: TokenKind, val: string, line: int)

  const DefaultLeft: string := "{{"
  const DefaultRight: string := "}}"

  /** The characters of the classifier table, in table order. */
  const TagChars: string := "#=!/+->$*"

  /** The classifier table `tagType`: the character right after the left delimiter. */
  function TagKind(c: char): (k: Option<TokenKind>)
    ensures k.Some? <==> c in TagChars
    ensures k.Some? ==> k.value != StringText
  {
    match c
    case '#' => Some(ArrayTag)
    case '=' => Some(ChangeDelimTag)
    case '!' => Some(CommentTag)
    case '/' => Some(EndTag)
    case '+' => Some(IfdefTag)
    case '-' => Some(IfndefTag)
    case '>' => Some(IncludeTag)
    case '$' => Some(ObjectTag)
    case '*' => Some(PrintTag)
    case _ => None
  }

  /** The kinds of error the lexer reports; each carries the template name and the current line. */
  datatype ErrorKind = MalformedTag | UnrecognizedTag | IncompleteTag

  datatype LexError = LexError(kind: ErrorKind, name: string, line: int)

  /** The fields of the Go `lexer`. */
  datatype LexState = LexState(name: string, ldel: string, rdel: string, line: int, src: string)

  /** Delimiters are never empty: the defaults are not, and a change to an empty one is refused. */
  predicate WellFormed(st: LexState) {
    st.ldel != [] && st.rdel != []
  }

  /** The state `newLexer` builds. */
  function Init(name: string, src: string): (st: LexState)
    ensures WellFormed(st)
  {
    LexState(name, DefaultLeft, DefaultRight, 1, src)
  }

  /** What one lexer call returns: end of input (`nil, nil`), a token, or an error. */
  datatype Step = Eof | Emit(tok: Token) | Fail(err: LexError)

  /** A step together with the lexer state it leaves behind. */
  datatype Lexed = Lexed(step: Step, st: LexState)

  // ---------------------------------------------------------------------
  // String helpers standing for the `strings` package
  // ---------------------------------------------------------------------

  /** `p` occurs somewhere in `s`. */
  predicate Contains(s: string, p: string) {
    exists j :: 0 <= j <= |s| && p <= s[j..]
  }

  /** No occurrence of `p` in `s` starts before position `n`. */
  predicate NoneBefore(s: string, p: string, n: int) {
    forall j :: 0 <= j < n && j <= |s| ==> !(p <= s[j..])
  }

  /** `strings.Index`: the first position where `p` occurs in `s`, or -1. */
  function IndexOf(s: string, p: string): (i: int)
    ensures i == -1 <==> !Contains(s, p)
    ensures i != -1 ==> 0 <= i && i + |p| <= |s| && p <= s[i..] && NoneBefore(s, p, i)
    decreases |s|
  {
    if p <= s then 0
    else if s == [] then -1
    else
      var i := IndexOf(s[1..], p);
      assert forall j :: 1 <= j <= |s| ==> s[j..] == s[1..][j - 1..];
      if i == -1 then -1 else i + 1
  }

  /** The first occurrence is unique: a match with none before it is what `IndexOf` finds. */
  lemma {:induction false} IndexOfIs(s: string, p: string, k: int)
    requires 0 <= k <= |s| && p <= s[k..] && NoneBefore(s, p, k)
    ensures IndexOf(s, p) == k
  {
    var i := IndexOf(s, p);
    assert i != -1 by { assert p <= s[k..]; }
  }

  /** Text that ends before the first occurrence of `p` does not contain `p`. */
  lemma {:induction false} PrefixFree(s: string, p: string, i: int)
    requires p != [] && 0 <= i <= |s| && NoneBefore(s, p, i)
    ensures !Contains(s[..i], p)
  {
    forall j | 0 <= j <= i ensures !(p <= s[..i][j..]) {
      assert s[..i][j..] <= s[j..];
    }
  }

  /** `strings.Count(s, [c])`: how many times `c` occurs in `s`. */
  function Count(s: string, c: char): nat
    decreases |s|
  {
    if s == [] then 0 else (if s[0] == c then 1 else 0) + Count(s[1..], c)
  }

  /** `strings.Count(s, "\n")`. */
  function Newlines(s: string): nat {
    Count(s, '\n')
  }

  /** The inverse of `Split`: the parts glued back together with `sep`. */
  function Join(parts: seq<string>, sep: char): string
    requires |parts| >= 1
  {
    if |parts| == 1 then parts[0] else parts[0] + [sep] + Join(parts[1..], sep)
  }

  /** `strings.Split(s, sep)` for a one-character separator. */
  function Split(s: string, sep: char): (parts: seq<string>)
    ensures |parts| >= 1
    decreases |s|
  {
    if s == [] then [[]]
    else
      var rest := Split(s[1..], sep);
      if s[0] == sep then [[]] + rest
      else [[s[0]] + rest[0]] + rest[1..]
  }

  /** `Split` cuts at every separator and nowhere else: one more part than separators, none containing one, and `Join` undoes it. */
  lemma {:induction false} SplitJoin(s: string, sep: char)
    ensures |Split(s, sep)| == Count(s, sep) + 1
    ensures Join(Split(s, sep), sep) == s
    ensures forall i :: 0 <= i < |Split(s, sep)| ==> sep !in Split(s, sep)[i]
    decreases |s|
  {
    if s != [] {
      var rest := Split(s[1..], sep);
      SplitJoin(s[1..], sep);
      assert s == [s[0]] + s[1..];
      if s[0] == sep {
        var parts := [[]] + rest;
        assert Split(s, sep) == parts;
        assert parts[1..] == rest;
      } else {
        var parts := [[s[0]] + rest[0]] + rest[1..];
        assert Split(s, sep) == parts;
        if |rest| > 1 {
          assert parts[1..] == rest[1..];
        }
        assert forall i :: 1 <= i < |parts| ==> parts[i] == rest[i];
      }
    }
  }

  /** Splitting text that has no separator gives the text itself. */
  lemma {:induction false} SplitNone(s: string, sep: char)
    requires sep !in s
    ensures Split(s, sep) == [s]
    decreases |s|
  {
    if s != [] {
      SplitNone(s[1..], sep);
      assert s == [s[0]] + s[1..];
    }
  }

  /** Splitting at the first separator. */
  lemma {:induction false} SplitFirst(a: string, sep: char, b: string)
    requires sep !in a
    ensures Split(a + [sep] + b, sep) == [a] + Split(b, sep)
    decreases |a|
  {
    var s := a + [sep] + b;
    if a != [] {
      assert s[0] == a[0] && s[0] != sep;
      assert s[1..] == a[1..] + [sep] + b;
      SplitFirst(a[1..], sep, b);
      assert a == [a[0]] + a[1..];
    } else {
      assert s[0] == sep && s[1..] == b;
    }
  }

  /**
   * The operands of a delimiter-change tag: the value must split on `" "`
   * into exactly two non-empty parts.
   */
  function Delimiters(val: string): (d: Option<(string, string)>)
    ensures d.Some? <==> Count(val, ' ') == 1 && val[0] != ' ' && val[|val| - 1] != ' '
    ensures d.Some? ==> d.value.0 != [] && d.value.1 != [] && val == d.value.0 + " " + d.value.1
  {
    var parts := Split(val, ' ');
    SplitJoin(val, ' ');
    if |parts| != 2 then None
    else
      assert val == parts[0] + " " + parts[1] by {
        assert Join(parts[1..], ' ') == parts[1];
      }
      assert parts[0] != [] ==> val[0] == parts[0][0];
      assert parts[1] != [] ==> val[|val| - 1] == parts[1][|parts[1]| - 1];
      if parts[0] == [] || parts[1] == [] then None
      else Some((parts[0], parts[1]))
  }

  // ---------------------------------------------------------------------
  // One lexer step at a time
  // ---------------------------------------------------------------------

  /** Lexing literal text up to the next left delimiter or the end (`lexString`). */
  function StringToken(st: LexState): (r: Lexed)
    requires WellFormed(st) && st.src != [] && !(st.ldel <= st.src)
    ensures r.step.Emit? && |r.st.src| < |st.src|
    ensures r.st.name == st.name && r.st.ldel == st.ldel && r.st.rdel == st.rdel
  {
    var i := IndexOf(st.src, st.ldel);
    if i == -1 then
      Lexed(Emit(Token(StringText, st.src, st.line)), st.(src := ""))
    else
      assert st.src[0..] == st.src;
      Lexed(Emit(Token(StringText, st.src[..i], st.line)),
            st.(src := st.src[i..], line := st.line + Newlines(st.src[..i])))
  }

  /**
   * What `StringToken` does: the token is non-empty text free of the left
   * delimiter (`StringFirst`: it ends where the first occurrence starts),
   * lexing resumes at that delimiter (or the input is used up), and only `src` and `line` change. The line advances by the
   * token's newlines, except when the text runs to the end of the input.
   */
  lemma {:induction false} StringShape(st: LexState)
    requires WellFormed(st) && st.src != [] && !(st.ldel <= st.src)
    ensures StringToken(st).step.tok.kind == StringText && StringToken(st).step.tok.line == st.line
    ensures StringToken(st).step.tok.val != [] && StringToken(st).step.tok.val + StringToken(st).st.src == st.src
    ensures !Contains(StringToken(st).step.tok.val, st.ldel)
    ensures StringToken(st).st.src == [] || st.ldel <= StringToken(st).st.src
    ensures StringToken(st).st == st.(src := StringToken(st).st.src, line := StringToken(st).st.line)
    ensures StringToken(st).st.line ==
      if StringToken(st).st.src == [] then st.line else st.line + Newlines(StringToken(st).step.tok.val)
  {
    var i := IndexOf(st.src, st.ldel);
    if i != -1 {
      assert st.src[0..] == st.src;
      PrefixFree(st.src, st.ldel, i);
      assert st.src[..i] + st.src[i..] == st.src;
    }
  }

  /** The string token ends where the first left delimiter starts: none starts inside it. */
  lemma {:induction false} StringFirst(st: LexState)
    requires WellFormed(st) && st.src != [] && !(st.ldel <= st.src)
    ensures NoneBefore(st.src, st.ldel, |StringToken(st).step.tok.val|)
  {
    var i := IndexOf(st.src, st.ldel);
    if i == -1 {
      assert StringToken(st).step.tok.val == st.src;
    } else {
      assert st.src[0..] == st.src;
      assert StringToken(st).step.tok.val == st.src[..i];
    }
  }

  /** Lexing a tag (`lexTag`): left delimiter, classifier, value, right delimiter. */
  function TagToken(st: LexState): (r: Lexed)
    requires WellFormed(st) && st.ldel <= st.src
    ensures !r.step.Eof?
    ensures |r.st.src| < |st.src|
    ensures r.st.name == st.name && r.st.ldel == st.ldel && r.st.rdel == st.rdel
    ensures r.step.Fail? ==> r.step.err.name == st.name && r.step.err.line == st.line
  {
    var n := |st.ldel|;
    if |st.src| <= n then
      Lexed(Fail(LexError(IncompleteTag, st.name, st.line)), st.(src := st.src[n..]))
    else
      match TagKind(st.src[n])
      case None => Lexed(Fail(LexError(UnrecognizedTag, st.name, st.line)), st.(src := st.src[n..]))
      case Some(k) =>
        var s2 := st.src[n + 1..];
        var i := IndexOf(s2, st.rdel);
        if i == -1 then
          Lexed(Fail(LexError(IncompleteTag, st.name, st.line)), st.(src := s2))
        else
          Lexed(Emit(Token(k, s2[..i], st.line)),
                st.(src := s2[i + |st.rdel|..], line := st.line + Newlines(s2[..i])))
  }

  /** `TagToken` yields a token exactly when a known classifier follows the left delimiter and a right delimiter follows that. */
  lemma {:induction false} TagEmits(st: LexState)
    requires WellFormed(st) && st.ldel <= st.src
    ensures TagToken(st).step.Emit? <==>
      |st.src| > |st.ldel| && TagKind(st.src[|st.ldel|]).Some? && Contains(st.src[|st.ldel| + 1..], st.rdel)
  {
  }

  /** Cutting the input around a tag whose right delimiter starts at `i` in `s2`. */
  lemma {:induction false} TagPieces(src: string, l: string, c: char, s2: string, rd: string, i: int)
    requires l <= src && |src| > |l| && src[|l|] == c && s2 == src[|l| + 1..]
    requires 0 <= i && i + |rd| <= |s2| && rd <= s2[i..]
    ensures src == l + [c] + s2[..i] + rd + s2[i + |rd|..]
  {
    var x, y := s2[..i], s2[i + |rd|..];
    PrefixSplit(s2[i..], rd);
    assert s2[i..][|rd|..] == y;
    assert s2 == x + s2[i..];
    PrefixSplit(src, l);
    assert src[|l|..] == [c] + s2;
    Regroup(l, [c], x, rd, y);
  }

  /** A text is its prefix followed by the rest. */
  lemma PrefixSplit(s: string, p: string)
    requires p <= s
    ensures s == p + s[|p|..]
  {
  }

  /** Concatenation regrouped. */
  lemma Regroup(a: string, b: string, c: string, d: string, e: string)
    ensures a + (b + (c + (d + e))) == a + b + c + d + e
  {
  }

  /**
   * The token's value is the text between the classifier and the first right
   * delimiter after it; lexing resumes after that delimiter, and the line
   * advances by the newlines in the value.
   */
  lemma {:induction false} TagShape(st: LexState)
    requires WellFormed(st) && st.ldel <= st.src && TagToken(st).step.Emit?
    ensures TagKind(st.src[|st.ldel|]) == Some(TagToken(st).step.tok.kind)
    ensures st.src == st.ldel + [st.src[|st.ldel|]] + TagToken(st).step.tok.val + st.rdel + TagToken(st).st.src
    ensures NoneBefore(st.src[|st.ldel| + 1..], st.rdel, |TagToken(st).step.tok.val|)
    ensures TagToken(st).step.tok.line == st.line
    ensures TagToken(st).st.line == st.line + Newlines(TagToken(st).step.tok.val)
  {
    var n := |st.ldel|;
    var s2 := st.src[n + 1..];
    var i := IndexOf(s2, st.rdel);
    TagEmits(st);
    TagTokenEmit(st, i);
    TagPieces(st.src, st.ldel, st.src[n], s2, st.rdel, i);
  }

  /** `TagToken` where a known classifier and a right delimiter at offset `i` after it are found. */
  lemma TagTokenEmit(st: LexState, i: int)
    requires WellFormed(st) && st.ldel <= st.src && |st.src| > |st.ldel| && TagKind(st.src[|st.ldel|]).Some?
    requires i == IndexOf(st.src[|st.ldel| + 1..], st.rdel) && i != -1
    ensures var s2 := st.src[|st.ldel| + 1..];
      TagToken(st) ==
        Lexed(Emit(Token(TagKind(st.src[|st.ldel|]).value, s2[..i], st.line)),
              st.(src := s2[i + |st.rdel|..], line := st.line + Newlines(s2[..i])))
  {
    var n := |st.ldel|;
    var s2 := st.src[n + 1..];
    var k := TagKind(st.src[n]).value;
    assert !(|st.src| <= n) && TagKind(st.src[n]) == Some(k);
    assert TagToken(st) ==
      Lexed(Emit(Token(k, s2[..i], st.line)), st.(src := s2[i + |st.rdel|..], line := st.line + Newlines(s2[..i])));
  }

  /** A tag error says what is missing: a known classifier, or the classifier or the right delimiter. */
  lemma {:induction false} TagErrorKind(st: LexState)
    requires WellFormed(st) && st.ldel <= st.src
    ensures var r := TagToken(st);
      r.step.Fail? ==>
        r.step.err.kind == if |st.src| > |st.ldel| && TagKind(st.src[|st.ldel|]).None? then UnrecognizedTag else IncompleteTag
  {
  }

  /** One raw step (`next`): end of input, a tag, or literal text. */
  function RawToken(st: LexState): (r: Lexed)
    requires WellFormed(st)
    ensures r.step.Eof? <==> st.src == []
    ensures r.step.Eof? ==> r.st == st
    ensures !r.step.Eof? ==> |r.st.src| < |st.src|
    ensures r.st.name == st.name && r.st.ldel == st.ldel && r.st.rdel == st.rdel
  {
    if st.src == [] then Lexed(Eof, st)
    else if st.ldel <= st.src then TagToken(st)
    else StringToken(st)
  }

  /**
   * `Next`: raw steps until one yields something the parser sees. Delimiter
   * changes are applied and comments dropped on the way.
   */
  function NextToken(st: LexState): (r: Lexed)
    requires WellFormed(st)
    ensures WellFormed(r.st) && r.st.name == st.name
    ensures |r.st.src| <= |st.src|
    ensures r.step.Emit? ==> |r.st.src| < |st.src|
    ensures r.step.Emit? ==> r.step.tok.kind != ChangeDelimTag && r.step.tok.kind != CommentTag
    ensures r.step.Eof? ==> r.st.src == []
    decreases |st.src|
  {
    var n := RawToken(st);
    match n.step
    case Emit(t) =>
      if t.kind == ChangeDelimTag then
        match Delimiters(t.val)
        case None => Lexed(Fail(LexError(MalformedTag, n.st.name, n.st.line)), n.st.(src := ""))
        case Some(d) => NextToken(n.st.(ldel := d.0, rdel := d.1))
      else if t.kind == CommentTag then NextToken(n.st)
      else n
    case _ => n
  }

  // ---------------------------------------------------------------------
  // Properties of the lexer steps
  // ---------------------------------------------------------------------

  /** The pieces of an input that starts with a tag, read back by position. */
  lemma {:induction false} TagParts(src: string, l: string, c: char, v: string, rd: string, rest: string)
    requires src == l + [c] + v + rd + rest
    ensures l <= src && |src| > |l| && src[|l|] == c && src[|l| + 1..] == v + rd + rest
    ensures (v + rd + rest)[..|v|] == v && (v + rd + rest)[|v|..] == rd + rest
    ensures (v + rd + rest)[|v| + |rd|..] == rest
  {
    assert src == l + ([c] + (v + rd + rest));
  }

  /** A well-formed tag at the head of the input is lexed as that tag. */
  lemma {:induction false} TagAt(st: LexState, c: char, v: string, rest: string)
    requires WellFormed(st) && TagKind(c).Some?
    requires st.src == st.ldel + [c] + v + st.rdel + rest
    requires NoneBefore(v + st.rdel + rest, st.rdel, |v|)
    ensures RawToken(st) ==
      Lexed(Emit(Token(TagKind(c).value, v, st.line)), st.(src := rest, line := st.line + Newlines(v)))
  {
    var s2 := v + st.rdel + rest;
    TagParts(st.src, st.ldel, c, v, st.rdel, rest);
    IndexOfIs(s2, st.rdel, |v|);
    TagTokenEmit(st, |v|);
  }

  /** Literal text up to the next left delimiter (or the end) is lexed as one string token. */
  lemma {:induction false} StringAt(st: LexState, v: string, rest: string)
    requires WellFormed(st) && v != []
    requires st.src == v + rest
    requires NoneBefore(st.src, st.ldel, |v|)
    requires rest == [] || st.ldel <= rest
    ensures RawToken(st) ==
      Lexed(Emit(Token(StringText, v, st.line)),
            st.(src := rest, line := if rest == [] then st.line else st.line + Newlines(v)))
  {
    assert !(st.ldel <= st.src[0..]);
    assert st.src[|v|..] == rest;
  }

  /**
   * `{{=A B}}` is never returned: the delimiters become `A` and `B` and
   * lexing goes on right after the tag.
   */
  lemma {:induction false} DelimiterChange(st: LexState, a: string, b: string)
    requires WellFormed(st) && a != [] && b != [] && ' ' !in a && ' ' !in b
    requires RawToken(st).step == Emit(Token(ChangeDelimTag, a + [' '] + b, st.line))
    ensures NextToken(st) == NextToken(RawToken(st).st.(ldel := a, rdel := b))
  {
    SplitFirst(a, ' ', b);
    SplitNone(b, ' ');
    assert Delimiters(a + [' '] + b) == Some((a, b));
  }

  /**
   * A delimiter-change tag whose value is not two non-empty names around a
   * single blank is fatal: a malformed-tag error, and the rest of the input
   * is dropped.
   */
  lemma {:induction false} MalformedDelimiters(st: LexState)
    requires WellFormed(st) && RawToken(st).step.Emit? && RawToken(st).step.tok.kind == ChangeDelimTag
    requires var v := RawToken(st).step.tok.val;
      Count(v, ' ') != 1 || v[0] == ' ' || v[|v| - 1] == ' '
    ensures NextToken(st) ==
      Lexed(Fail(LexError(MalformedTag, st.name, RawToken(st).st.line)), RawToken(st).st.(src := ""))
  {
  }

  /** A comment tag is dropped: lexing continues right after it. */
  lemma {:induction false} CommentDropped(st: LexState)
    requires WellFormed(st) && RawToken(st).step.Emit? && RawToken(st).step.tok.kind == CommentTag
    ensures NextToken(st) == NextToken(RawToken(st).st)
  {
  }

  /** Whatever else the raw step yields reaches the parser unchanged. */
  lemma {:induction false} OtherPassThrough(st: LexState)
    requires WellFormed(st)
    requires !RawToken(st).step.Emit? || RawToken(st).step.tok.kind !in {ChangeDelimTag, CommentTag}
    ensures NextToken(st) == RawToken(st)
  {
  }

  // ---------------------------------------------------------------------
  // The token stream the parser reads
  // ---------------------------------------------------------------------

  /**
   * A stream as the parser sees it: tokens, then the end of input or an
   * error, and never a delimiter change or a comment.
   */
  predicate IsStream(ts: seq<Step>)
    decreases |ts|
  {
    && |ts| >= 1
    && if ts[0].Emit? then
         && ts[0].tok.kind != ChangeDelimTag && ts[0].tok.kind != CommentTag
         && IsStream(ts[1..])
       else |ts| == 1
  }

  /** What successive calls of `Next` return from `st`, up to the end of input or the first error. */
  function Tokens(st: LexState): (ts: seq<Step>)
    requires WellFormed(st)
    ensures IsStream(ts) && ts[0] == NextToken(st).step
    decreases |st.src|
  {
    var n := NextToken(st);
    if n.step.Emit? then [n.step] + Tokens(n.st) else [n.step]
  }

  /** Once `Next` has reported the end of input, it keeps doing so. */
  lemma {:induction false} EofStays(st: LexState)
    requires WellFormed(st) && NextToken(st).step.Eof?
    ensures Tokens(NextToken(st).st) == [Eof]
  {
    var s := NextToken(st).st;
    assert RawToken(s) == Lexed(Eof, s);
  }

  /** With the default left delimiter, text free of `{` is one literal token, up to the next tag or the end. */
  lemma {:induction false} TextStep(st: LexState, v: string, rest: string)
    requires st.ldel == DefaultLeft && st.rdel == DefaultRight && st.src == v + rest
    requires v != [] && '{' !in v && (rest == [] || DefaultLeft <= rest)
    ensures NextToken(st).step.Emit? && NextToken(st).step.tok.kind == StringText && NextToken(st).step.tok.val == v
    ensures NextToken(st).st.src == rest
    ensures NextToken(st).st.ldel == DefaultLeft && NextToken(st).st.rdel == DefaultRight
  {
    forall j | 0 <= j < |v| && j <= |st.src| ensures !(st.ldel <= st.src[j..]) {
      assert st.src[j..][0] == v[j];
    }
    StringAt(st, v, rest);
  }

  /** With the default delimiters, a tag whose value is free of `}` is one token. */
  lemma {:induction false} TagStep(st: LexState, c: char, v: string, rest: string)
    requires st.ldel == DefaultLeft && st.rdel == DefaultRight
    requires st.src == DefaultLeft + [c] + v + DefaultRight + rest
    requires TagKind(c).Some? && TagKind(c).value != ChangeDelimTag && TagKind(c).value != CommentTag
    requires '}' !in v
    ensures NextToken(st).step.Emit? && NextToken(st).step.tok.kind == TagKind(c).value && NextToken(st).step.tok.val == v
    ensures NextToken(st).st.src == rest
    ensures NextToken(st).st.ldel == DefaultLeft && NextToken(st).st.rdel == DefaultRight
  {
    var s := v + st.rdel + rest;
    forall j | 0 <= j < |v| && j <= |s| ensures !(st.rdel <= s[j..]) {
      assert s[j..][0] == v[j];
    }
    assert NoneBefore(s, st.rdel, |v|);
    assert st.src == st.ldel + [c] + v + st.rdel + rest;
    TagAt(st, c, v, rest);

  }

  /** With the default delimiters, a comment whose text is free of `}` is skipped. */
  lemma {:induction false} CommentStep(st: LexState, c: char, v: string, rest: string)
    requires st.ldel == DefaultLeft && st.rdel == DefaultRight
    requires st.src == DefaultLeft + [c] + v + DefaultRight + rest
    requires TagKind(c) == Some(CommentTag) && '}' !in v
    ensures RawToken(st).st.src == rest && RawToken(st).st.ldel == DefaultLeft && RawToken(st).st.rdel == DefaultRight
    ensures NextToken(st) == NextToken(RawToken(st).st)
  {
    var s := v + st.rdel + rest;
    forall j | 0 <= j < |v| && j <= |s| ensures !(st.rdel <= s[j..]) {
      assert s[j..][0] == v[j];
    }
    assert NoneBefore(s, st.rdel, |v|);
    assert st.src == st.ldel + [c] + v + st.rdel + rest;
    TagAt(st, c, v, rest);
    CommentDropped(st);
  }

  /** With the default delimiters, input that is a single comment yields no token at all. */
  lemma {:induction false} CommentOnlyTokens(st: LexState, v: string)
    requires st.ldel == DefaultLeft && st.rdel == DefaultRight
    requires st.src == DefaultLeft + ['!'] + v + DefaultRight && '}' !in v
    ensures Tokens(st) == [Eof]
  {
    assert st.src == DefaultLeft + ['!'] + v + DefaultRight + [];
    CommentStep(st, '!', v, []);
    var after := RawToken(st).st;
    assert RawToken(after) == Lexed(Eof, after);
  }

  /** `Tokens` unfolds one token at a time. */
  lemma {:induction false} TokensCons(st: LexState)
    requires WellFormed(st) && NextToken(st).step.Emit?
    ensures Tokens(st) == [NextToken(st).step] + Tokens(NextToken(st).st)
  {
  }

  // ---------------------------------------------------------------------
  // The lexer object
  // ---------------------------------------------------------------------

  /** The Go `lexer`: every method advances `src` and may move `line` and the delimiters. */
  class Lexer {
    const name: string
    var ldel: string
    var rdel: string
    var line: int
    var src: string

    function State(): LexState
      reads this
    {
      LexState(name, ldel, rdel, line, src)
    }

    ghost predicate Valid()
      reads this
    {
      WellFormed(State())
    }

    /** `newLexer`: line 1, delimiters `{{` and `}}`. */
    constructor (name: string, src: string)
      ensures Valid() && State() == Init(name, src)
    {
      this.name := name;
      this.ldel := DefaultLeft;
      this.rdel := DefaultRight;
      this.src := src;
      this.line := 1;
    }

    /** `lexString`: literal text up to the next left delimiter. */
    method LexString() returns (t: Token)
      requires Valid() && src != [] && !(ldel <= src)
      modifies this
      ensures Valid()
      ensures Lexed(Emit(t), State()) == StringToken(old(State()))
    {
      var i := IndexOf(src, ldel);
      if i == -1 {
        t := Token(StringText, src, line);
        src := "";
        return;
      }
      t := Token(StringText, src[..i], line);
      src := src[i..];
      line := line + Newlines(t.val);
    }

    /** `lexTag`: a tag at the head of the input. */
    method LexTag() returns (r: Step)
      requires Valid() && ldel <= src
      modifies this
      ensures Valid()
      ensures Lexed(r, State()) == TagToken(old(State()))
    {
      src := src[|ldel|..];
      if |src| < 1 {
        return Fail(LexError(IncompleteTag, name, line));
      }
      var k := TagKind(src[0]);
      if k.None? {
        return Fail(LexError(UnrecognizedTag, name, line));
      }
      src := src[1..];
      var i := IndexOf(src, rdel);
      if i == -1 {
        return Fail(LexError(IncompleteTag, name, line));
      }
      var t := Token(k.value, src[..i], line);
      src := src[i + |rdel|..];
      line := line + Newlines(t.val);
      return Emit(t);
    }

    /** `next`: one raw step. */
    method NextRaw() returns (r: Step)
      requires Valid()
      modifies this
      ensures Valid()
      ensures Lexed(r, State()) == RawToken(old(State()))
    {
      if src == "" {
        return Eof;
      }
      if ldel <= src {
        r := LexTag();
        return;
      }
      var t := LexString();
      return Emit(t);
    }

    /** `Next`: the next token the parser sees, end of input, or an error. */
    method Next() returns (r: Step)
      requires Valid()
      modifies this
      ensures Valid()
      ensures Lexed(r, State()) == NextToken(old(State()))
    {
      while true
        invariant Valid()
        invariant NextToken(State()) == NextToken(old(State()))
        decreases |src|
      {
        ghost var before := State();
        var t := NextRaw();
        if t.Emit? && t.tok.kind == ChangeDelimTag {
          var d := Delimiters(t.tok.val);
          if d.None? {
            src := "";
            return Fail(LexError(MalformedTag, name, line));
          }
          ldel := d.value.0;
          rdel := d.value.1;
          continue;
        }
        if t.Emit? && t.tok.kind == CommentTag {
          continue;
        }
        return t;
      }
    }
  }
}
