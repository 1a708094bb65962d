/**
 * The filter pass (filter.go): three regular-expression rewrites of the
 * string literals of a parse tree, selected by bit flags.
 *
 * Each rewrite is a function that scans the text left to right the way
 * `ReplaceAllString` does: matches are leftmost, do not overlap, and the scan
 * resumes after each match.
 *   - `Collapse`   is `\n+`      -> `\n`
 *   - `TrimLeft`   is `\n[ \t]+` -> `\n`
 *   - `TrimRight`  is `[ \t]+\n` -> `\n`
 */
module Filters {
  import opened Tree

  /** The `Filter` flags, a Go `int`, as a 64-bit word. */
  type Flags = bv64

  const NoBlankLines: Flags := 1
  const TrimLeftSpace: Flags := 2
  const TrimRightSpace: Flags := 4

  predicate IsBlank(c: char) {
    c == ' ' || c == '\t'
  }

  /** No newline is immediately followed by another. */
  predicate NoBlankLine(s: string) {
    forall i :: 0 <= i < |s| - 1 && s[i] == '\n' ==> s[i + 1] != '\n'
  }

  /** No newline is immediately followed by a blank. */
  predicate NoLeadingBlank(s: string) {
    forall i :: 0 <= i < |s| - 1 && s[i] == '\n' ==> !IsBlank(s[i + 1])
  }

  /** No blank is immediately followed by a newline. */
  predicate NoTrailingBlank(s: string) {
    forall i :: 0 <= i < |s| - 1 && IsBlank(s[i]) ==> s[i + 1] != '\n'
  }

  /** The number of occurrences of `c`. */
  function Occurrences(s: string, c: char): nat {
    if s == [] then 0 else (if s[0] == c then 1 else 0) + Occurrences(s[1..], c)
  }

  /** `s` with every blank removed. */
  function Unblank(s: string): string {
    if s == [] then [] else (if IsBlank(s[0]) then [] else [s[0]]) + Unblank(s[1..])
  }

  /** `s` with every newline removed. */
  function Unnewline(s: string): string {
    if s == [] then [] else (if s[0] == '\n' then [] else [s[0]]) + Unnewline(s[1..])
  }

  /** How `NoBlankLine` of a text follows from that of its tail. */
  lemma {:induction false} ConsBlankLine(c: char, r: string)
    ensures NoBlankLine([c] + r) <==> NoBlankLine(r) && (c == '\n' && r != [] ==> r[0] != '\n')
  {
    var s := [c] + r;
    assert s[0] == c;
    assert forall i :: 0 <= i < |r| ==> s[i + 1] == r[i];
  }

  /** How `NoLeadingBlank` of a text follows from that of its tail. */
  lemma {:induction false} ConsLeading(c: char, r: string)
    ensures NoLeadingBlank([c] + r) <==> NoLeadingBlank(r) && (c == '\n' && r != [] ==> !IsBlank(r[0]))
  {
    var s := [c] + r;
    assert s[0] == c;
    assert forall i :: 0 <= i < |r| ==> s[i + 1] == r[i];
  }

  /** How `NoTrailingBlank` of a text follows from that of its tail. */
  lemma {:induction false} ConsTrailing(c: char, r: string)
    ensures NoTrailingBlank([c] + r) <==> NoTrailingBlank(r) && (IsBlank(c) && r != [] ==> r[0] != '\n')
  {
    var s := [c] + r;
    assert s[0] == c;
    assert forall i :: 0 <= i < |r| ==> s[i + 1] == r[i];
  }

  /** How the counts of a text follow from those of its tail. */
  lemma {:induction false} ConsCounts(c: char, r: string)
    ensures Unblank([c] + r) == (if IsBlank(c) then [] else [c]) + Unblank(r)
    ensures Unnewline([c] + r) == (if c == '\n' then [] else [c]) + Unnewline(r)
    ensures Occurrences([c] + r, '\n') == (if c == '\n' then 1 else 0) + Occurrences(r, '\n')
  {
    var s := [c] + r;
    assert s[0] == c && s[1..] == r;
  }

  lemma {:induction false} Uncons(s: string)
    requires s != []
    ensures s == [s[0]] + s[1..]
  {
  }

  /** The three adjacency properties carry over to every suffix. */
  lemma {:induction false} Suffix(s: string, k: int)
    requires 0 <= k <= |s|
    ensures NoBlankLine(s) ==> NoBlankLine(s[k..])
    ensures NoLeadingBlank(s) ==> NoLeadingBlank(s[k..])
    ensures NoTrailingBlank(s) ==> NoTrailingBlank(s[k..])
  {
    var t := s[k..];
    assert forall i :: 0 <= i < |t| ==> t[i] == s[k + i];
  }

  // ---------------------------------------------------------------------
  // Runs of blanks and of newlines
  // ---------------------------------------------------------------------

  /** `s` after its leading run of blanks. */
  function SkipBlanks(s: string): (r: string)
    ensures |r| <= |s| && r == s[|s| - |r|..]
    ensures r != [] ==> !IsBlank(r[0])
    ensures forall i :: 0 <= i < |s| - |r| ==> IsBlank(s[i])
  {
    if s != [] && IsBlank(s[0]) then SkipBlanks(s[1..]) else s
  }

  /** `s` after its leading run of newlines. */
  function SkipNewlines(s: string): (r: string)
    ensures |r| <= |s| && r == s[|s| - |r|..]
    ensures r != [] ==> r[0] != '\n'
    ensures forall i :: 0 <= i < |s| - |r| ==> s[i] == '\n'
  {
    if s != [] && s[0] == '\n' then SkipNewlines(s[1..]) else s
  }

  /** Skipping blanks removes only blanks. */
  lemma {:induction false} SkipBlanksFacts(s: string)
    ensures Unblank(SkipBlanks(s)) == Unblank(s)
    ensures Occurrences(SkipBlanks(s), '\n') == Occurrences(s, '\n')
    decreases |s|
  {
    if s != [] && IsBlank(s[0]) {
      SkipBlanksFacts(s[1..]);
    }
  }

  /** Skipping newlines removes only newlines. */
  lemma {:induction false} SkipNewlinesFacts(s: string)
    ensures Unnewline(SkipNewlines(s)) == Unnewline(s)
    ensures Occurrences(SkipNewlines(s), '\n') <= Occurrences(s, '\n')
    decreases |s|
  {
    if s != [] && s[0] == '\n' {
      SkipNewlinesFacts(s[1..]);
    }
  }

  // ---------------------------------------------------------------------
  // The three rewrites
  // ---------------------------------------------------------------------

  /** `\n+` -> `\n`: every run of newlines becomes one newline. */
  function Collapse(s: string): (r: string)
    ensures |r| <= |s|
    ensures s != [] ==> r != [] && r[0] == s[0]
    decreases |s|
  {
    if s == [] then []
    else if s[0] == '\n' then "\n" + Collapse(SkipNewlines(s[1..]))
    else [s[0]] + Collapse(s[1..])
  }

  /** `\n[ \t]+` -> `\n`: the blanks right after each newline are dropped. */
  function TrimLeft(s: string): (r: string)
    ensures |r| <= |s|
    ensures s != [] ==> r != [] && r[0] == s[0]
    decreases |s|
  {
    if s == [] then []
    else if s[0] == '\n' then "\n" + TrimLeft(SkipBlanks(s[1..]))
    else [s[0]] + TrimLeft(s[1..])
  }

  /**
   * `[ \t]+\n` -> `\n`: a match is tried at each blank; it succeeds when the
   * run of blanks from there is followed by a newline, and otherwise the blank
   * is kept and the scan moves on by one character.
   */
  function TrimRight(s: string): (r: string)
    ensures |r| <= |s|
    ensures s != [] ==> r != [] && r[0] == if BlankRunToNewline(s) then '\n' else s[0]
    decreases |s|
  {
    if s == [] then []
    else if BlankRunToNewline(s) then "\n" + TrimRight(SkipBlanks(s)[1..])
    else [s[0]] + TrimRight(s[1..])
  }

  /** `s` starts with one or more blanks and then a newline. */
  predicate BlankRunToNewline(s: string) {
    s != [] && IsBlank(s[0]) && SkipBlanks(s) != [] && SkipBlanks(s)[0] == '\n'
  }

  // ---------------------------------------------------------------------
  // Collapse
  // ---------------------------------------------------------------------

  /**
   * `Collapse` leaves no blank line, removes nothing but newlines, and never
   * adds a newline.
   */
  lemma {:induction false} CollapseSpec(s: string)
    ensures NoBlankLine(Collapse(s))
    ensures Unnewline(Collapse(s)) == Unnewline(s)
    ensures Occurrences(Collapse(s), '\n') <= Occurrences(s, '\n')
    decreases |s|
  {
    if s != [] {
      if s[0] == '\n' {
        var t := SkipNewlines(s[1..]);
        CollapseSpec(t);
        SkipNewlinesFacts(s[1..]);
        ConsBlankLine('\n', Collapse(t));
        ConsCounts('\n', Collapse(t));
      } else {
        CollapseSpec(s[1..]);
        ConsBlankLine(s[0], Collapse(s[1..]));
        ConsCounts(s[0], Collapse(s[1..]));
      }
    }
  }

  /** Text with no blank line is left as it is. */
  lemma {:induction false} CollapseFixed(s: string)
    requires NoBlankLine(s)
    ensures Collapse(s) == s
    decreases |s|
  {
    if s != [] {
      assert s == [s[0]] + s[1..];
      ConsBlankLine(s[0], s[1..]);
      CollapseFixed(s[1..]);
    }
  }

  lemma {:induction false} CollapseIdempotent(s: string)
    ensures Collapse(Collapse(s)) == Collapse(s)
  {
    CollapseSpec(s);
    CollapseFixed(Collapse(s));
  }

  /** `Collapse` introduces no newline followed by a blank and no blank followed by a newline. */
  lemma {:induction false} CollapseKeeps(s: string)
    ensures NoLeadingBlank(s) ==> NoLeadingBlank(Collapse(s))
    ensures NoTrailingBlank(s) ==> NoTrailingBlank(Collapse(s))
    decreases |s|
  {
    if s != [] {
      assert s == [s[0]] + s[1..];
      ConsLeading(s[0], s[1..]);
      ConsTrailing(s[0], s[1..]);
      if s[0] == '\n' {
        var t := SkipNewlines(s[1..]);
        var k := |s| - |t|;
        assert t == s[k..] && s[k - 1] == '\n';
        Suffix(s, k);
        CollapseKeeps(t);
        ConsLeading('\n', Collapse(t));
        ConsTrailing('\n', Collapse(t));
        if NoLeadingBlank(s) && t != [] {
          assert s[k] == t[0];
        }
      } else {
        CollapseKeeps(s[1..]);
        ConsLeading(s[0], Collapse(s[1..]));
        ConsTrailing(s[0], Collapse(s[1..]));
      }
    }
  }

  // ---------------------------------------------------------------------
  // TrimLeft
  // ---------------------------------------------------------------------

  /**
   * `TrimLeft` leaves no newline followed by a blank, removes nothing but
   * blanks, and keeps every newline.
   */
  lemma {:induction false} TrimLeftSpec(s: string)
    ensures NoLeadingBlank(TrimLeft(s))
    ensures Unblank(TrimLeft(s)) == Unblank(s)
    ensures Occurrences(TrimLeft(s), '\n') == Occurrences(s, '\n')
    decreases |s|
  {
    if s != [] {
      if s[0] == '\n' {
        var t := SkipBlanks(s[1..]);
        TrimLeftSpec(t);
        SkipBlanksFacts(s[1..]);
        ConsLeading('\n', TrimLeft(t));
        ConsCounts('\n', TrimLeft(t));
      } else {
        TrimLeftSpec(s[1..]);
        ConsLeading(s[0], TrimLeft(s[1..]));
        ConsCounts(s[0], TrimLeft(s[1..]));
      }
    }
  }

  /** Text with no newline followed by a blank is left as it is. */
  lemma {:induction false} TrimLeftFixed(s: string)
    requires NoLeadingBlank(s)
    ensures TrimLeft(s) == s
    decreases |s|
  {
    if s != [] {
      assert s == [s[0]] + s[1..];
      ConsLeading(s[0], s[1..]);
      TrimLeftFixed(s[1..]);
    }
  }

  lemma {:induction false} TrimLeftIdempotent(s: string)
    ensures TrimLeft(TrimLeft(s)) == TrimLeft(s)
  {
    TrimLeftSpec(s);
    TrimLeftFixed(TrimLeft(s));
  }

  // ---------------------------------------------------------------------
  // TrimRight
  // ---------------------------------------------------------------------

  /**
   * `TrimRight` leaves no blank followed by a newline, removes nothing but
   * blanks, and keeps every newline.
   */
  lemma {:induction false} TrimRightSpec(s: string)
    ensures TrimRightOk(s)
    decreases |s|
  {
    if s != [] {
      if BlankRunToNewline(s) {
        TrimRightSpec(SkipBlanks(s)[1..]);
        TrimRightMatch(s);
      } else {
        TrimRightSpec(s[1..]);
        TrimRightSkip(s);
      }
    }
  }

  predicate TrimRightOk(s: string) {
    && NoTrailingBlank(TrimRight(s))
    && Unblank(TrimRight(s)) == Unblank(s)
    && Occurrences(TrimRight(s), '\n') == Occurrences(s, '\n')
  }

  /** `TrimRightSpec` where a run of blanks and a newline are replaced. */
  lemma {:induction false} TrimRightMatch(s: string)
    requires BlankRunToNewline(s) && TrimRightOk(SkipBlanks(s)[1..])
    ensures TrimRightOk(s)
  {
    var b := SkipBlanks(s);
    SkipBlanksFacts(s);
    Uncons(b);
    ConsTrailing(b[0], b[1..]);
    ConsCounts(b[0], b[1..]);
    ConsTrailing('\n', TrimRight(b[1..]));
    ConsCounts('\n', TrimRight(b[1..]));
  }

  /** `TrimRightSpec` where the first character is kept. */
  lemma {:induction false} TrimRightSkip(s: string)
    requires s != [] && !BlankRunToNewline(s) && TrimRightOk(s[1..])
    ensures TrimRightOk(s)
  {
    if IsBlank(s[0]) && |s| > 1 {
      NoMatchNext(s);
    }
    Uncons(s);
    ConsTrailing(s[0], s[1..]);
    ConsCounts(s[0], s[1..]);
    ConsTrailing(s[0], TrimRight(s[1..]));
    ConsCounts(s[0], TrimRight(s[1..]));
  }

  /** After a blank that starts no match, the next character starts none either and is no newline. */
  lemma {:induction false} NoMatchNext(s: string)
    requires |s| > 1 && IsBlank(s[0]) && !BlankRunToNewline(s)
    ensures TrimRight(s[1..])[0] == s[1] != '\n'
  {
    var u := s[1..];
    assert SkipBlanks(s) == SkipBlanks(u);
    if IsBlank(u[0]) {
      assert !BlankRunToNewline(u);
    } else {
      assert SkipBlanks(u) == u;
      assert !BlankRunToNewline(u);
    }
    TrimRightKept(u);
  }

  /** Where no match starts, `TrimRight` keeps the first character. */
  lemma {:induction false} TrimRightKept(s: string)
    requires s != [] && !BlankRunToNewline(s)
    ensures TrimRight(s) == [s[0]] + TrimRight(s[1..])
  {
  }

  /** Text with no blank followed by a newline is left as it is. */
  lemma {:induction false} TrimRightFixed(s: string)
    requires NoTrailingBlank(s)
    ensures TrimRight(s) == s
    decreases |s|
  {
    if s != [] {
      assert s == [s[0]] + s[1..];
      ConsTrailing(s[0], s[1..]);
      assert !BlankRunToNewline(s) by {
        var b := SkipBlanks(s);
        var k := |s| - |b|;
        if IsBlank(s[0]) && b != [] {
          assert k >= 1 && IsBlank(s[k - 1]) && s[k] == b[0];
        }
      }
      TrimRightFixed(s[1..]);
    }
  }

  lemma {:induction false} TrimRightIdempotent(s: string)
    ensures TrimRight(TrimRight(s)) == TrimRight(s)
  {
    TrimRightSpec(s);
    TrimRightFixed(TrimRight(s));
  }

  /** `TrimRight` introduces no newline followed by a blank. */
  lemma {:induction false} TrimRightKeeps(s: string)
    requires NoLeadingBlank(s)
    ensures NoLeadingBlank(TrimRight(s))
    decreases |s|
  {
    if s != [] {
      assert s == [s[0]] + s[1..];
      ConsLeading(s[0], s[1..]);
      if BlankRunToNewline(s) {
        var b := SkipBlanks(s);
        var k := |s| - |b|;
        assert b == s[k..];
        Suffix(s, k + 1);
        assert b[1..] == s[k + 1..];
        TrimRightKeeps(b[1..]);
        ConsLeading('\n', TrimRight(b[1..]));
        if |b| > 1 {
          assert s[k] == '\n' && s[k + 1] == b[1];
        }
      } else {
        TrimRightKeeps(s[1..]);
        ConsLeading(s[0], TrimRight(s[1..]));
      }
    }
  }

  // ---------------------------------------------------------------------
  // Position-wise reference definitions
  //
  // Each rewrite keeps or drops every character of the input on its own,
  // by what surrounds it in the input:
  //   - `Collapse` drops a newline that directly follows a newline;
  //   - `TrimLeft` drops a blank when only blanks stand between it and a
  //     newline before it;
  //   - `TrimRight` drops a blank when only blanks stand between it and a
  //     newline after it.
  // ---------------------------------------------------------------------

  /** `s[i]` is a newline directly after another. */
  predicate DoubleNewline(s: string, i: int)
    requires 0 <= i < |s|
  {
    s[i] == '\n' && i > 0 && s[i - 1] == '\n'
  }

  /** `s[i]` is a blank with a newline before it and only blanks in between. */
  predicate LeadBlank(s: string, i: int)
    requires 0 <= i < |s|
    decreases i
  {
    IsBlank(s[i]) && i > 0 && (s[i - 1] == '\n' || LeadBlank(s, i - 1))
  }

  /**
   * `t` starts with a blank that has a newline after it and only blanks in
   * between. `TrimRight` works forward, so its reference decides each
   * position by the suffix that starts there.
   */
  predicate BlankBeforeNewline(t: string)
    decreases |t|
  {
    |t| > 1 && IsBlank(t[0]) && (t[1] == '\n' || BlankBeforeNewline(t[1..]))
  }

  /** The characters of `s` from position `i` on that are not double newlines. */
  function CollapseFrom(s: string, i: nat): string
    requires i <= |s|
    decreases |s| - i
  {
    if i == |s| then [] else (if DoubleNewline(s, i) then [] else [s[i]]) + CollapseFrom(s, i + 1)
  }

  /** The characters of `s` from position `i` on that are not blanks after a newline. */
  function TrimLeftFrom(s: string, i: nat): string
    requires i <= |s|
    decreases |s| - i
  {
    if i == |s| then [] else (if LeadBlank(s, i) then [] else [s[i]]) + TrimLeftFrom(s, i + 1)
  }

  /** The characters of `t` that are not blanks before a newline: `t[k]` is kept unless `BlankBeforeNewline(t[k..])`. */
  function TrimRightRef(t: string): string
    decreases |t|
  {
    if t == [] then [] else (if BlankBeforeNewline(t) then [] else [t[0]]) + TrimRightRef(t[1..])
  }

  /** `Collapse` keeps exactly the characters that are not a newline directly after a newline. */
  lemma {:induction false} CollapseMeaning(s: string)
    ensures Collapse(s) == CollapseFrom(s, 0)
  {
    assert s[0..] == s;
    CollapseFromAt(s, 0);
  }

  lemma {:induction false} CollapseFromAt(s: string, i: nat)
    requires i <= |s| && (i == |s| || !DoubleNewline(s, i))
    ensures Collapse(s[i..]) == CollapseFrom(s, i)
    decreases |s| - i
  {
    if i < |s| {
      var u := s[i..];
      assert u[0] == s[i] && u[1..] == s[i + 1..];
      if s[i] == '\n' {
        var t := SkipNewlines(u[1..]);
        var j := |s| - |t|;
        assert t == s[j..];
        CollapseRun(s, i, i + 1, j);
        CollapseFromAt(s, j);
      } else {
        CollapseFromAt(s, i + 1);
      }
    }
  }

  /** The newlines after the newline at `i` up to `j` are all dropped. */
  lemma {:induction false} CollapseRun(s: string, i: nat, m: nat, j: nat)
    requires i < m <= j <= |s| && s[i] == '\n'
    requires forall k :: i < k < j ==> s[k] == '\n'
    ensures CollapseFrom(s, m) == CollapseFrom(s, j)
    decreases j - m
  {
    if m < j {
      assert s[m - 1] == '\n';
      CollapseRun(s, i, m + 1, j);
    }
  }

  /** `TrimLeft` keeps exactly the characters that are not blanks after a newline. */
  lemma {:induction false} TrimLeftMeaning(s: string)
    ensures TrimLeft(s) == TrimLeftFrom(s, 0)
  {
    assert s[0..] == s;
    TrimLeftFromAt(s, 0);
  }

  lemma {:induction false} TrimLeftFromAt(s: string, i: nat)
    requires i <= |s| && (i == |s| || !LeadBlank(s, i))
    ensures TrimLeft(s[i..]) == TrimLeftFrom(s, i)
    decreases |s| - i
  {
    if i < |s| {
      var u := s[i..];
      assert u[0] == s[i] && u[1..] == s[i + 1..];
      if s[i] == '\n' {
        var t := SkipBlanks(u[1..]);
        var j := |s| - |t|;
        assert t == s[j..];
        TrimLeftRun(s, i, i + 1, j);
        if j < |s| {
          assert s[j] == t[0];
        }
        TrimLeftFromAt(s, j);
      } else {
        TrimLeftFromAt(s, i + 1);
      }
    }
  }

  /** The blanks after the newline at `i` up to `j` are all dropped. */
  lemma {:induction false} TrimLeftRun(s: string, i: nat, m: nat, j: nat)
    requires i < m <= j <= |s| && s[i] == '\n'
    requires forall k :: i < k < j ==> IsBlank(s[k])
    ensures TrimLeftFrom(s, m) == TrimLeftFrom(s, j)
    decreases j - m
  {
    if m < j {
      LeadBlankRun(s, i, m);
      TrimLeftRun(s, i, m + 1, j);
    }
  }

  lemma {:induction false} LeadBlankRun(s: string, i: nat, m: nat)
    requires i < m < |s| && s[i] == '\n'
    requires forall k :: i < k <= m ==> IsBlank(s[k])
    ensures LeadBlank(s, m)
    decreases m
  {
    if m - 1 > i {
      LeadBlankRun(s, i, m - 1);
    }
  }

  /** `TrimRight` keeps exactly the characters that are not blanks before a newline. */
  lemma {:induction false} TrimRightMeaning(t: string)
    ensures TrimRight(t) == TrimRightRef(t)
    decreases |t|
  {
    if t != [] {
      BlankBeforeNewlineIff(t);
      if BlankRunToNewline(t) {
        var b := SkipBlanks(t);
        TrimRightRefSkip(t);
        TrimRightMeaning(b[1..]);
        TrimRightRefNewline(b);
        TrimRightMatched(t);
      } else {
        TrimRightMeaning(t[1..]);
        TrimRightKept(t);
      }
    }
  }

  /** Both definitions agree on which texts start with a match of `[ \t]+\n`. */
  lemma {:induction false} BlankBeforeNewlineIff(t: string)
    ensures BlankBeforeNewline(t) <==> BlankRunToNewline(t)
    decreases |t|
  {
    if t != [] && IsBlank(t[0]) {
      var r := t[1..];
      assert SkipBlanks(t) == SkipBlanks(r);
      if r == [] {
        assert SkipBlanks(r) == [];
      } else if r[0] == '\n' {
        assert SkipBlanks(r) == r;
      } else if IsBlank(r[0]) {
        BlankBeforeNewlineIff(r);
      } else {
        assert SkipBlanks(r) == r;
        assert !BlankBeforeNewline(r);
      }
    }
  }

  /** The reference drops a run of blanks before a newline. */
  lemma {:induction false} TrimRightRefSkip(t: string)
    requires BlankRunToNewline(t)
    ensures TrimRightRef(t) == TrimRightRef(SkipBlanks(t))
    decreases |t|
  {
    BlankBeforeNewlineIff(t);
    assert SkipBlanks(t) == SkipBlanks(t[1..]);
    if t[1] != '\n' {
      BlankBeforeNewlineIff(t[1..]);
      TrimRightRefSkip(t[1..]);
    }
  }

  /** The reference keeps a newline. */
  lemma {:induction false} TrimRightRefNewline(b: string)
    requires b != [] && b[0] == '\n'
    ensures TrimRightRef(b) == "\n" + TrimRightRef(b[1..])
  {
    assert !BlankBeforeNewline(b);
  }

  /** Where a match starts, `TrimRight` puts one newline for it. */
  lemma {:induction false} TrimRightMatched(u: string)
    requires BlankRunToNewline(u)
    ensures TrimRight(u) == "\n" + TrimRight(SkipBlanks(u)[1..])
  {
  }

  // ---------------------------------------------------------------------
  // The rewrite of a literal
  // ---------------------------------------------------------------------

  /** The rewrites a literal goes through: left trim, right trim, then blank lines, each when its flag is set. */
  function Rewrite(val: string, flags: Flags): (r: string)
    ensures |r| <= |val|
  {
    var a := if flags & TrimLeftSpace != 0 then TrimLeft(val) else val;
    var b := if flags & TrimRightSpace != 0 then TrimRight(a) else a;
    if flags & NoBlankLines != 0 then Collapse(b) else b
  }

  /**
   * Each flag's property holds for the rewritten literal, whichever other
   * flags are set: no blank line, no newline followed by a blank, no blank
   * followed by a newline. The literal never gains a newline.
   */
  lemma {:induction false} RewriteSpec(val: string, flags: Flags)
    ensures flags & NoBlankLines != 0 ==> NoBlankLine(Rewrite(val, flags))
    ensures flags & TrimLeftSpace != 0 ==> NoLeadingBlank(Rewrite(val, flags))
    ensures flags & TrimRightSpace != 0 ==> NoTrailingBlank(Rewrite(val, flags))
    ensures Occurrences(Rewrite(val, flags), '\n') <= Occurrences(val, '\n')
  {
    var a := if flags & TrimLeftSpace != 0 then TrimLeft(val) else val;
    var b := if flags & TrimRightSpace != 0 then TrimRight(a) else a;
    TrimLeftSpec(val);
    TrimRightSpec(a);
    CollapseSpec(b);
    CollapseKeeps(b);
    if flags & TrimLeftSpace != 0 {
      TrimRightKeeps(a);
    }
  }

  /** With no flag set, a literal is unchanged. */
  lemma {:induction false} RewriteNone(val: string)
    ensures Rewrite(val, 0) == val
  {
  }

  /** Rewriting twice with the same flags changes nothing more. */
  lemma {:induction false} RewriteIdempotent(val: string, flags: Flags)
    ensures Rewrite(Rewrite(val, flags), flags) == Rewrite(val, flags)
  {
    var r := Rewrite(val, flags);
    RewriteSpec(val, flags);
    if flags & TrimLeftSpace != 0 {
      TrimLeftFixed(r);
    }
    if flags & TrimRightSpace != 0 {
      TrimRightFixed(r);
    }
    if flags & NoBlankLines != 0 {
      CollapseFixed(r);
    }
  }

  /** `filter`: every string literal of the tree rewritten, everything else as it was. */
  function FilterTree(ns: seq<Node>, flags: Flags): (r: seq<Node>)
    ensures |r| == |ns|
    decreases ns
  {
    if ns == [] then [] else [FilterNode(ns[0], flags)] + FilterTree(ns[1..], flags)
  }

  function FilterNode(n: Node, flags: Flags): (r: Node)
    decreases n
  {
    match n
    case ArraySection(name, ch) => ArraySection(name, FilterTree(ch, flags))
    case IfdefSection(name, ch) => IfdefSection(name, FilterTree(ch, flags))
    case IfndefSection(name, ch) => IfndefSection(name, FilterTree(ch, flags))
    case ObjectSection(name, ch) => ObjectSection(name, FilterTree(ch, flags))
    case Include(_) => n
    case Print(_) => n
    case StringLit(val) => StringLit(Rewrite(val, flags))
  }

  /** Node `i` of the filtered tree is node `i` of the tree, filtered. */
  lemma {:induction false} FilterTreeAt(ns: seq<Node>, flags: Flags)
    ensures forall i :: 0 <= i < |ns| ==> FilterTree(ns, flags)[i] == FilterNode(ns[i], flags)
    decreases ns
  {
    if ns != [] {
      FilterTreeAt(ns[1..], flags);
      forall i | 0 < i < |ns| ensures FilterTree(ns, flags)[i] == FilterNode(ns[i], flags) {
        assert ns[i] == ns[1..][i - 1];
      }
    }
  }

  /**
   * `filter`: a pass over the nodes that overwrites each string literal with
   * its rewrite and descends into sections; the result is `FilterTree`.
   */
  method FilterPass(tree: seq<Node>, flags: Flags) returns (r: seq<Node>)
    ensures r == FilterTree(tree, flags)
    decreases tree
  {
    r := tree;
    var i := 0;
    while i < |r|
      invariant |r| == |tree| && 0 <= i <= |r|
      invariant forall j :: 0 <= j < i ==> r[j] == FilterNode(tree[j], flags)
      invariant forall j :: i <= j < |r| ==> r[j] == tree[j]
    {
      var n := tree[i];
      if n.IsSection() {
        var ch := FilterPass(n.nodes, flags);
        r := r[i := n.(nodes := ch)];
      } else if n.StringLit? {
        var val := n.val;
        if flags & TrimLeftSpace != 0 {
          val := TrimLeft(val);
        }
        if flags & TrimRightSpace != 0 {
          val := TrimRight(val);
        }
        if flags & NoBlankLines != 0 {
          val := Collapse(val);
        }
        r := r[i := StringLit(val)];
      }
      i := i + 1;
    }
    FilterTreeAt(tree, flags);
  }

  /** Two trees with the same shape, names and leaves, apart from the text of string literals. */
  predicate SameShape(a: seq<Node>, b: seq<Node>)
    decreases a
  {
    |a| == |b| && forall i :: 0 <= i < |a| ==> SameNodeShape(a[i], b[i])
  }

  predicate SameNodeShape(a: Node, b: Node)
    decreases a
  {
    match a
    case ArraySection(name, ch) => b.ArraySection? && b.name == name && SameShape(ch, b.nodes)
    case IfdefSection(name, ch) => b.IfdefSection? && b.name == name && SameShape(ch, b.nodes)
    case IfndefSection(name, ch) => b.IfndefSection? && b.name == name && SameShape(ch, b.nodes)
    case ObjectSection(name, ch) => b.ObjectSection? && b.name == name && SameShape(ch, b.nodes)
    case Include(_) => b == a
    case Print(_) => b == a
    case StringLit(_) => b.StringLit?
  }

  /**
   * Filtering keeps the shape of the tree, every section name and every
   * include and print node; each literal becomes its rewrite.
   */
  lemma {:induction false} FilterShape(ns: seq<Node>, flags: Flags)
    ensures SameShape(ns, FilterTree(ns, flags))
    ensures forall i :: 0 <= i < |ns| && ns[i].StringLit? ==>
              FilterTree(ns, flags)[i] == StringLit(Rewrite(ns[i].val, flags))
    decreases ns
  {
    if ns != [] {
      FilterNodeShape(ns[0], flags);
      FilterShape(ns[1..], flags);
      var r := FilterTree(ns, flags);
      forall i | 0 <= i < |ns| ensures SameNodeShape(ns[i], r[i]) {
        if i > 0 {
          assert ns[i] == ns[1..][i - 1] && r[i] == FilterTree(ns[1..], flags)[i - 1];
        }
      }
      forall i | 0 <= i < |ns| && ns[i].StringLit? ensures r[i] == StringLit(Rewrite(ns[i].val, flags)) {
        if i > 0 {
          assert ns[i] == ns[1..][i - 1] && r[i] == FilterTree(ns[1..], flags)[i - 1];
        }
      }
    }
  }

  lemma {:induction false} FilterNodeShape(n: Node, flags: Flags)
    ensures SameNodeShape(n, FilterNode(n, flags))
    decreases n
  {
    if n.IsSection() {
      FilterShape(n.nodes, flags);
    }
  }

  /** With no flag set, filtering changes nothing. */
  lemma {:induction false} FilterNone(ns: seq<Node>)
    ensures FilterTree(ns, 0) == ns
    decreases ns
  {
    if ns != [] {
      FilterNodeNone(ns[0]);
      FilterNone(ns[1..]);
      assert ns == [ns[0]] + ns[1..];
    }
  }

  lemma {:induction false} FilterNodeNone(n: Node)
    ensures FilterNode(n, 0) == n
    decreases n
  {
    if n.IsSection() {
      FilterNone(n.nodes);
    } else if n.StringLit? {
      RewriteNone(n.val);
    }
  }

  // ---------------------------------------------------------------------
  // Worked examples (filter_test.go)
  // ---------------------------------------------------------------------

  /** Text without newlines passes through `Collapse` untouched. */
  lemma {:induction false} CollapsePlain(a: string, t: string)
    requires '\n' !in a
    ensures Collapse(a + t) == a + Collapse(t)
    decreases |a|
  {
    if a == [] {
      assert a + t == t;
    } else {
      var r := a[1..] + t;
      assert a + t == [a[0]] + r && (a + t)[0] == a[0] && (a + t)[1..] == r;
      CollapsePlain(a[1..], t);
      assert a == [a[0]] + a[1..];
      assert [a[0]] + (a[1..] + Collapse(t)) == a + Collapse(t);
    }
  }

  /** Text without newlines passes through `TrimLeft` untouched. */
  lemma {:induction false} TrimLeftPlain(a: string, t: string)
    requires '\n' !in a
    ensures TrimLeft(a + t) == a + TrimLeft(t)
    decreases |a|
  {
    if a == [] {
      assert a + t == t;
    } else {
      var r := a[1..] + t;
      assert a + t == [a[0]] + r && (a + t)[0] == a[0] && (a + t)[1..] == r;
      TrimLeftPlain(a[1..], t);
      assert a == [a[0]] + a[1..];
      assert [a[0]] + (a[1..] + TrimLeft(t)) == a + TrimLeft(t);
    }
  }

  /** Text without blanks passes through `TrimRight` untouched. */
  lemma {:induction false} TrimRightPlain(a: string, t: string)
    requires ' ' !in a && '\t' !in a
    ensures TrimRight(a + t) == a + TrimRight(t)
    decreases |a|
  {
    if a == [] {
      assert a + t == t;
    } else {
      TrimRightPlainStep(a, t);
      TrimRightPlain(a[1..], t);
      ConsAppend(a, TrimRight(t));
    }
  }

  /** One step of `TrimRightPlain`: a first character that is no blank is kept. */
  lemma {:induction false} TrimRightPlainStep(a: string, t: string)
    requires a != [] && !IsBlank(a[0])
    ensures TrimRight(a + t) == [a[0]] + TrimRight(a[1..] + t)
  {
    var s := a + t;
    assert s[0] == a[0] && s[1..] == a[1..] + t;
    TrimRightKept(s);
  }

  /** Putting the head of `a` back in front. */
  lemma ConsAppend(a: string, x: string)
    requires a != []
    ensures [a[0]] + (a[1..] + x) == a + x
  {
    assert a == [a[0]] + a[1..];
  }

  /** The rewrite selected by `NoBlankLines` alone. */
  lemma RewriteCollapse(v: string)
    ensures Rewrite(v, NoBlankLines) == Collapse(v)
  {
  }

  /** The rewrite selected by `TrimLeftSpace` alone. */
  lemma RewriteTrimLeft(v: string)
    ensures Rewrite(v, TrimLeftSpace) == TrimLeft(v)
  {
  }

  /** The rewrite selected by `TrimRightSpace` alone. */
  lemma RewriteTrimRight(v: string)
    ensures Rewrite(v, TrimRightSpace) == TrimRight(v)
  {
  }

  /** Two newlines before a line lose one. */
  lemma {:induction false} CollapseDouble(b: string)
    requires '\n' !in b
    ensures Collapse("\n\n" + b) == "\n" + b
  {
    var t := "\n\n" + b;
    CollapsePlain(b, []);
    assert b + [] == b;
    assert t[1..] == "\n" + b && ("\n" + b)[1..] == b;
    assert SkipNewlines(t[1..]) == b;
  }

  /** `foo\n\nbar` becomes `foo\nbar`, and so does any blank line between two lines. */
  lemma {:induction false} BlankLinesExample(a: string, b: string)
    requires '\n' !in a && '\n' !in b
    ensures Rewrite(a + "\n\n" + b, NoBlankLines) == a + "\n" + b
  {
    var t := "\n\n" + b;
    var v := a + "\n\n" + b;
    assert v == a + t;
    RewriteCollapse(v);
    CollapsePlain(a, t);
    CollapseDouble(b);
    assert a + ("\n" + b) == a + "\n" + b;
  }

  /** A newline and one blank before text that does not start with a blank lose the blank. */
  lemma {:induction false} TrimLeftIndent(b: string)
    requires '\n' !in b && (b == [] || !IsBlank(b[0]))
    ensures TrimLeft("\n " + b) == "\n" + b
  {
    var t := "\n " + b;
    TrimLeftPlain(b, []);
    assert b + [] == b;
    assert t[0] == '\n' && t[1..] == " " + b && (" " + b)[1..] == b;
    assert SkipBlanks(t[1..]) == b;
  }

  /** `foo\n bar` becomes `foo\nbar`, and so does any line followed by a line indented by one blank. */
  lemma {:induction false} LeftSpaceExample(a: string, b: string)
    requires '\n' !in a && '\n' !in b && (b == [] || !IsBlank(b[0]))
    ensures Rewrite(a + "\n " + b, TrimLeftSpace) == a + "\n" + b
  {
    var t := "\n " + b;
    var v := a + "\n " + b;
    assert v == a + t;
    RewriteTrimLeft(v);
    TrimLeftPlain(a, t);
    TrimLeftIndent(b);
    assert a + ("\n" + b) == a + "\n" + b;
  }

  /** One blank before a newline is dropped. */
  lemma {:induction false} TrimRightOneBlank(b: string)
    requires ' ' !in b && '\t' !in b
    ensures TrimRight(" \n" + b) == "\n" + b
  {
    var t := " \n" + b;
    TrimRightPlain(b, []);
    assert b + [] == b;
    assert t[1..] == "\n" + b;
    assert SkipBlanks(t) == "\n" + b;
    assert BlankRunToNewline(t);
    assert SkipBlanks(t)[1..] == b;
  }

  /** `foo \nbar` becomes `foo\nbar`, and so does any line ending in one blank before a line. */
  lemma {:induction false} RightSpaceExample(a: string, b: string)
    requires ' ' !in a && '\t' !in a && ' ' !in b && '\t' !in b
    ensures Rewrite(a + " \n" + b, TrimRightSpace) == a + "\n" + b
  {
    var t := " \n" + b;
    var v := a + " \n" + b;
    assert v == a + t;
    RewriteTrimRight(v);
    TrimRightPlain(a, t);
    TrimRightOneBlank(b);
    assert a + ("\n" + b) == a + "\n" + b;
  }
}
