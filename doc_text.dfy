/** The string handling cmd/ugodoc/main.go relies on: the character classes
    of Go's regexp syntax and of unicode.IsSpace, strings.Split, SplitN,
    Join, TrimSpace and Trim, and the seven regular expressions of the tool
    written out as predicates. Strings are sequences of Unicode code points;
    the byte-level UTF-8 encoding of Go strings is not modelled. */
module DocText {

  datatype Option<T> = None | Some(value: T)

  // ---------------------------------------------------------------------
  // Character classes

  /** `\s` in Go's regexp syntax: the ASCII class [\t\n\f\r ]. */
  predicate IsRegexSpace(c: char) {
    c == '\t' || c == '\n' || c == '\U{0C}' || c == '\r' || c == ' '
  }

  /** `\w` in Go's regexp syntax: [0-9A-Za-z_]. */
  predicate IsWordChar(c: char) {
    ('0' <= c <= '9') || ('A' <= c <= 'Z') || ('a' <= c <= 'z') || c == '_'
  }

  /** unicode.IsSpace, the class strings.TrimSpace removes. */
  predicate IsUnicodeSpace(c: char) {
    c == '\t' || c == '\n' || c == '\U{0B}' || c == '\U{0C}' || c == '\r' || c == ' '
    || c == '\U{85}' || c == '\U{A0}' || c == '\U{1680}' || ('\U{2000}' <= c <= '\U{200A}')
    || c == '\U{2028}' || c == '\U{2029}' || c == '\U{202F}' || c == '\U{205F}' || c == '\U{3000}'
  }

  predicate IsNewline(c: char) {
    c == '\n'
  }

  // ---------------------------------------------------------------------
  // Runs and prefixes

  /** The length of the longest run of `\s` characters starting at k. */
  function SpaceRun(s: string, k: nat): (n: nat)
    requires k <= |s|
    ensures k + n <= |s|
    ensures k + n == |s| || !IsRegexSpace(s[k + n])
    decreases |s| - k
  {
    if k < |s| && IsRegexSpace(s[k]) then 1 + SpaceRun(s, k + 1) else 0
  }

  /** The run SpaceRun measures is made of spaces. */
  lemma {:induction false} SpaceRunSpaces(s: string, k: nat)
    requires k <= |s|
    ensures forall m :: k <= m < k + SpaceRun(s, k) ==> IsRegexSpace(s[m])
    decreases |s| - k
  {
    if k < |s| && IsRegexSpace(s[k]) {
      SpaceRunSpaces(s, k + 1);
    }
  }

  /** The length of the longest run of `\w` characters starting at k. */
  function WordRun(s: string, k: nat): (n: nat)
    requires k <= |s|
    ensures k + n <= |s|
    ensures k + n == |s| || !IsWordChar(s[k + n])
    decreases |s| - k
  {
    if k < |s| && IsWordChar(s[k]) then 1 + WordRun(s, k + 1) else 0
  }

  /** The run WordRun measures is made of word characters. */
  lemma {:induction false} WordRunWords(s: string, k: nat)
    requires k <= |s|
    ensures forall m :: k <= m < k + WordRun(s, k) ==> IsWordChar(s[m])
    decreases |s| - k
  {
    if k < |s| && IsWordChar(s[k]) {
      WordRunWords(s, k + 1);
    }
  }

  /** `p` occurs in `s` at position k. */
  predicate HasPrefixAt(s: string, k: nat, p: string) {
    k + |p| <= |s| && s[k..k + |p|] == p
  }

  /** strings.HasPrefix. */
  predicate HasPrefix(s: string, p: string) {
    HasPrefixAt(s, 0, p)
  }

  // ---------------------------------------------------------------------
  // Trimming

  /** Drops the leading characters satisfying `cut`. */
  function TrimLeft(s: string, cut: char -> bool): (r: string)
    ensures |r| <= |s| && r == s[|s| - |r|..]
    ensures r == [] || !cut(r[0])
  {
    if s != [] && cut(s[0]) then TrimLeft(s[1..], cut) else s
  }

  /** Only characters satisfying `cut` were dropped. */
  lemma {:induction false} TrimLeftCut(s: string, cut: char -> bool)
    ensures forall i :: 0 <= i < |s| - |TrimLeft(s, cut)| ==> cut(s[i])
  {
    if s != [] && cut(s[0]) {
      TrimLeftCut(s[1..], cut);
      assert forall i :: 1 <= i < |s| ==> s[i] == s[1..][i - 1];
    }
  }

  /** Drops the trailing characters satisfying `cut`. */
  function TrimRight(s: string, cut: char -> bool): (r: string)
    ensures |r| <= |s| && r == s[..|r|]
    ensures r == [] || !cut(r[|r| - 1])
  {
    if s != [] && cut(s[|s| - 1]) then TrimRight(s[..|s| - 1], cut) else s
  }

  /** Only characters satisfying `cut` were dropped. */
  lemma {:induction false} TrimRightCut(s: string, cut: char -> bool)
    ensures forall i :: |TrimRight(s, cut)| <= i < |s| ==> cut(s[i])
  {
    if s != [] && cut(s[|s| - 1]) {
      TrimRightCut(s[..|s| - 1], cut);
    }
  }

  /** strings.TrimSpace. */
  function TrimSpace(s: string): string {
    TrimRight(TrimLeft(s, IsUnicodeSpace), IsUnicodeSpace)
  }

  /** strings.Trim(s, "\n"). */
  function TrimNewlines(s: string): string {
    TrimRight(TrimLeft(s, IsNewline), IsNewline)
  }

  /** Trimming the spaces off both ends leaves a piece of the string that
      starts and ends with a non-space, and only spaces were removed. */
  lemma TrimSpaceCore(s: string)
    ensures var t := TrimSpace(s);
      && (t == [] <==> forall i :: 0 <= i < |s| ==> IsUnicodeSpace(s[i]))
      && (t != [] ==> !IsUnicodeSpace(t[0]) && !IsUnicodeSpace(t[|t| - 1]))
  {
    TrimSpaceEmpty(s);
    TrimSpaceEnds(s);
  }

  /** Trimming the spaces leaves nothing exactly when there is nothing but
      spaces. */
  lemma TrimSpaceEmpty(s: string)
    ensures TrimSpace(s) == [] <==> forall i :: 0 <= i < |s| ==> IsUnicodeSpace(s[i])
  {
    var l := TrimLeft(s, IsUnicodeSpace);
    var t := TrimSpace(s);
    TrimLeftCut(s, IsUnicodeSpace);
    if t == [] {
      // A non-space would have stopped TrimLeft and then survived TrimRight.
      TrimRightCut(l, IsUnicodeSpace);
      assert l == [];
    } else {
      TrimSpaceEnds(s);
      TrimSpaceLast(s);
    }
  }

  /** Where the last character left after trimming sits in the string. */
  lemma TrimSpaceLast(s: string)
    requires TrimSpace(s) != []
    ensures var k, t := |s| - |TrimLeft(s, IsUnicodeSpace)|, TrimSpace(s);
      k + |t| <= |s| && s[k + |t| - 1] == t[|t| - 1]
  {
    var l := TrimLeft(s, IsUnicodeSpace);
    var t := TrimSpace(s);
    assert l[|t| - 1] == t[|t| - 1];
  }

  /** What is left after trimming starts and ends with a non-space. */
  lemma TrimSpaceEnds(s: string)
    ensures var t := TrimSpace(s);
      t != [] ==> !IsUnicodeSpace(t[0]) && !IsUnicodeSpace(t[|t| - 1])
  {
    var l := TrimLeft(s, IsUnicodeSpace);
    var t := TrimSpace(s);
    if t != [] {
      assert l[0] == t[0];
    }
  }

  /** strings.Trim(s, "\n") is empty exactly when `s` holds nothing but
      newlines. */
  lemma TrimNewlinesEmpty(s: string)
    ensures TrimNewlines(s) == [] <==> forall i :: 0 <= i < |s| ==> s[i] == '\n'
  {
    var l := TrimLeft(s, IsNewline);
    TrimLeftCut(s, IsNewline);
    TrimRightCut(l, IsNewline);
    if TrimNewlines(s) == [] {
      forall i | 0 <= i < |s| ensures s[i] == '\n' {
        if i >= |s| - |l| {
          assert s[i] == l[i - (|s| - |l|)];
        }
      }
    }
  }

  // ---------------------------------------------------------------------
  // Splitting and joining

  /** strings.Join. */
  function Join(parts: seq<string>, sep: string): string {
    if |parts| == 0 then ""
    else if |parts| == 1 then parts[0]
    else parts[0] + sep + Join(parts[1..], sep)
  }

  /** strings.Split(s, "\n"): the pieces between the newlines; the empty
      string gives one empty piece. */
  function SplitLines(s: string): (r: seq<string>)
    ensures |r| >= 1
    ensures forall i :: 0 <= i < |r| ==> '\n' !in r[i]
  {
    if s == [] then [""]
    else
      var rest := SplitLines(s[1..]);
      if s[0] == '\n' then [""] + rest else [[s[0]] + rest[0]] + rest[1..]
  }

  /** Joining the pieces with newlines gives back the string. */
  lemma {:induction false} SplitThenJoin(s: string)
    ensures Join(SplitLines(s), "\n") == s
  {
    if s != [] {
      var rest := SplitLines(s[1..]);
      SplitThenJoin(s[1..]);
      if s[0] == '\n' {
        assert ([""] + rest)[1..] == rest;
      } else {
        var r := SplitLines(s);
        assert r[1..] == rest[1..];
        if |rest| > 1 {
          assert Join(rest, "\n") == rest[0] + "\n" + Join(rest[1..], "\n");
        }
      }
    }
  }

  /** A line without newlines is one piece. */
  lemma {:induction false} SplitSingle(a: string)
    requires '\n' !in a
    ensures SplitLines(a) == [a]
  {
    if a != [] {
      assert '\n' !in a[1..] by {
        forall i | 0 <= i < |a| - 1 ensures a[1..][i] != '\n' {
          assert a[1..][i] == a[i + 1];
        }
      }
      SplitSingle(a[1..]);
      assert [a[0]] + a[1..] == a;
    }
  }

  /** Splitting `a + "\n" + b` splits off `a` as the first piece. */
  lemma {:induction false} SplitAfterLine(a: string, b: string)
    requires '\n' !in a
    ensures SplitLines(a + "\n" + b) == [a] + SplitLines(b)
  {
    if a == [] {
      assert ("\n" + b)[1..] == b;
    } else {
      assert (a + "\n" + b)[1..] == a[1..] + "\n" + b;
      assert '\n' !in a[1..] by {
        forall i | 0 <= i < |a| - 1 ensures a[1..][i] != '\n' {
          assert a[1..][i] == a[i + 1];
        }
      }
      SplitAfterLine(a[1..], b);
      assert [a[0]] + a[1..] == a;
    }
  }

  /** Splitting pieces joined with newlines gives back the pieces, provided
      none of them holds a newline. */
  lemma {:induction false} JoinThenSplit(parts: seq<string>)
    requires |parts| >= 1
    requires forall i :: 0 <= i < |parts| ==> '\n' !in parts[i]
    ensures SplitLines(Join(parts, "\n")) == parts
  {
    if |parts| == 1 {
      SplitSingle(parts[0]);
    } else {
      JoinThenSplit(parts[1..]);
      SplitAfterLine(parts[0], Join(parts[1..], "\n"));
    }
  }

  /** strings.SplitN(s, "\n", 2): the first line and, when there is a
      newline, everything after it. */
  function SplitFirst(s: string): (r: seq<string>)
    ensures |r| == 1 || |r| == 2
    ensures |r| == 2 <==> '\n' in s
    ensures '\n' !in r[0]
    ensures |r| == 1 ==> r[0] == s
    ensures |r| == 2 ==> s == r[0] + "\n" + r[1]
  {
    var pieces := SplitLines(s);
    SplitThenJoin(s);
    if |pieces| == 1 then [s]
    else
      var first := pieces[0];
      assert s == first + "\n" + Join(pieces[1..], "\n");
      assert s[|first|] == '\n';
      [first, s[|first| + 1..]]
  }

  // ---------------------------------------------------------------------
  // The regular expressions of cmd/ugodoc/main.go. Each character class
  // below is disjoint from the one that follows it, so every quantifier
  // takes its longest run and a match, when there is one, is unique.

  /** `^\s*##\s+<title>`: the Types, Constants and Functions headers. */
  predicate SectionHeader(s: string, title: string) {
    var a := SpaceRun(s, 0);
    HasPrefixAt(s, a, "##") && SpaceRun(s, a + 2) > 0 && HasPrefixAt(s, a + 2 + SpaceRun(s, a + 2), title)
  }

  predicate TypesHeader(s: string) {
    SectionHeader(s, "Types")
  }

  predicate ConstantsHeader(s: string) {
    SectionHeader(s, "Constants")
  }

  predicate FunctionsHeader(s: string) {
    SectionHeader(s, "Functions")
  }

  /** `^\s*##\s`: any second-level Markdown header. */
  predicate Level2Header(s: string) {
    var a := SpaceRun(s, 0);
    HasPrefixAt(s, a, "##") && a + 2 < |s| && IsRegexSpace(s[a + 2])
  }

  /** `^\s*\w+`: the line starts, after optional spaces, with a word
      character. */
  predicate WordStart(s: string) {
    var a := SpaceRun(s, 0);
    a < |s| && IsWordChar(s[a])
  }

  /** `^\s*#\s+(\w+)\s+Module`: the module header, with the captured module
      name. */
  function ModuleName(s: string): (r: Option<string>)
    ensures r.Some? ==> r.value != [] && forall i :: 0 <= i < |r.value| ==> IsWordChar(r.value[i])
    ensures r.Some? ==> SpaceRun(s, 0) < |s| && s[SpaceRun(s, 0)] == '#'
  {
    var a := SpaceRun(s, 0);
    if a < |s| && s[a] == '#' then
      var b := SpaceRun(s, a + 1);
      var w := WordRun(s, a + 1 + b);
      WordRunWords(s, a + 1 + b);
      if b > 0 && w > 0 then
        var c := SpaceRun(s, a + 1 + b + w);
        if c > 0 && HasPrefixAt(s, a + 1 + b + w + c, "Module") then Some(s[a + 1 + b..a + 1 + b + w])
        else None
      else None
    else None
  }

  /** `\s+->\s+.*?$` from position k: spaces, an arrow, spaces, then the
      rest of the text without a newline (`.` never matches one). */
  predicate ArrowTail(s: string, k: nat)
    requires k <= |s|
  {
    var a := SpaceRun(s, k);
    a > 0 && HasPrefixAt(s, k + a, "->")
    && var b := SpaceRun(s, k + a + 2);
    b > 0 && '\n' !in s[k + a + 2 + b..]
  }

  /** `.*?\)\s+->\s+.*?$` from position k: some `)` at or after k, with no
      newline before it, is followed by the arrow tail. */
  predicate CloseFrom(s: string, k: nat)
    requires k <= |s|
    decreases |s| - k
  {
    k < |s| && ((s[k] == ')' && ArrowTail(s, k + 1)) || (s[k] != '\n' && CloseFrom(s, k + 1)))
  }

  /** The `)` at j closes the parameter list of an annotation whose
      parameters start at k. */
  predicate ClosesAt(s: string, k: nat, j: int)
    requires k <= |s|
  {
    k <= j < |s| && s[j] == ')' && ArrowTail(s, j + 1) && '\n' !in s[k..j]
  }

  /** CloseFrom is the search for a closing parenthesis the lazy `.*?`
      stands for. */
  lemma {:induction false} CloseFromExists(s: string, k: nat)
    requires k <= |s|
    ensures CloseFrom(s, k) <==> exists j :: ClosesAt(s, k, j)
    decreases |s| - k
  {
    if k < |s| {
      CloseFromExists(s, k + 1);
      if s[k] == ')' && ArrowTail(s, k + 1) {
        assert ClosesAt(s, k, k);
      } else if CloseFrom(s, k) {
        var j :| ClosesAt(s, k + 1, j);
        ClosesAtWiden(s, k, j);
      } else {
        forall j | ClosesAt(s, k, j) ensures false {
          if j != k {
            ClosesAtNarrow(s, k, j);
          }
        }
      }
    }
  }

  /** A closing parenthesis found after k + 1 is found after k too, when
      the character at k is no line break. */
  lemma ClosesAtWiden(s: string, k: nat, j: int)
    requires k < |s| && s[k] != '\n' && ClosesAt(s, k + 1, j)
    ensures ClosesAt(s, k, j)
  {
    assert s[k..j] == [s[k]] + s[k + 1..j];
  }

  /** A closing parenthesis after k, but not at k, is one after k + 1 with
      no line break at k. */
  lemma ClosesAtNarrow(s: string, k: nat, j: int)
    requires k < |s| && ClosesAt(s, k, j) && j != k
    ensures s[k] != '\n' && ClosesAt(s, k + 1, j)
  {
    assert s[k..j][0] == s[k];
    assert s[k..j] == [s[k]] + s[k + 1..j];
  }

  /** `^\s*(\w+)\(.*?\)\s+->\s+.*?$`: a function annotation such as
      `contains(s string, substr string) -> bool`, with the captured
      function name. */
  function FuncName(s: string): (r: Option<string>)
    ensures r.Some? ==> r.value != [] && forall i :: 0 <= i < |r.value| ==> IsWordChar(r.value[i])
  {
    var a := SpaceRun(s, 0);
    var w := WordRun(s, a);
    WordRunWords(s, a);
    if w > 0 && a + w < |s| && s[a + w] == '(' && CloseFrom(s, a + w + 1) then Some(s[a..a + w]) else None
  }

  predicate FuncAnnot(s: string) {
    FuncName(s).Some?
  }

  /** Every section header is a second-level header. */
  lemma SectionIsLevel2(s: string, title: string)
    requires title != []
    ensures SectionHeader(s, title) ==> Level2Header(s)
  {
  }
}
