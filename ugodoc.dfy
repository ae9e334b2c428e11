/** cmd/ugodoc/main.go: how the `ugo:doc` comments of a module's Go package
    become the module's Markdown documentation. A docgroup collects the
    lines of the comments into a preamble and three sections (types,
    constants and functions) with a small block state machine, and
    formatComments assembles the page. getModuleItem, which renders an item
    of the module's value map, is a parameter of the model. */
module UgoDoc {
  import opened DocText

  const UgoDocPrefix := "ugo:doc"

  // ---------------------------------------------------------------------
  // extractComment

  /** The comment's first line, trimmed, starts with the `ugo:doc` marker. */
  predicate IsDocComment(text: string) {
    HasPrefix(TrimSpace(SplitFirst(text)[0]), UgoDocPrefix)
  }

  /** extractComment on the text of a comment group: the text after the
      marker line, and whether there was a marker. A marked comment must go
      on past its first line; the source indexes past the end of SplitN's
      result otherwise. */
  function ExtractComment(text: string): (r: (string, bool))
    requires IsDocComment(text) ==> '\n' in text
    ensures r.1 <==> IsDocComment(text)
    ensures r.1 ==> text == SplitFirst(text)[0] + "\n" + r.0
    ensures !r.1 ==> r.0 == ""
  {
    var parts := SplitFirst(text);
    var p0 := TrimSpace(parts[0]);
    if HasPrefix(p0, UgoDocPrefix) then (parts[1], true) else ("", false)
  }

  /** A line break splits a text in one way only, given the part before it
      holds no line break. */
  lemma FirstLineUnique(a: string, b: string, c: string, d: string)
    requires '\n' !in a && '\n' !in c
    requires a + "\n" + b == c + "\n" + d
    ensures a == c && b == d
  {
    var s := a + "\n" + b;
    assert s[|a|] == '\n' && s[|c|] == '\n';
    assert forall k :: 0 <= k < |a| ==> s[k] == a[k];
    assert forall k :: 0 <= k < |c| ==> s[k] == c[k];
    assert a == s[..|a|] && c == s[..|c|];
    assert b == s[|a| + 1..] && d == s[|c| + 1..];
  }

  /** A comment whose first line carries the marker gives back exactly the
      body that follows that line. */
  lemma ExtractMarked(header: string, body: string)
    requires '\n' !in header && HasPrefix(TrimSpace(header), UgoDocPrefix)
    ensures ExtractComment(header + "\n" + body) == (body, true)
  {
    var text := header + "\n" + body;
    var parts := SplitFirst(text);
    assert '\n' in text by {
      assert text[|header|] == '\n';
    }
    FirstLineUnique(parts[0], parts[1], header, body);
  }

  // ---------------------------------------------------------------------
  // The docgroup state

  /** getModuleItem(module, key): the rendering of an item of a module's
      value map, "" when the text does not name one. */
  type Lookup = (string, string) -> string

  /** The fields of a docgroup. */
  datatype Doc = Doc(moduleName: string, docs: seq<string>, types: seq<string>, consts: seq<string>,
                     funcs: seq<string>, errs: seq<string>, funcHLine: bool)

  /** The zero docgroup formatComments starts from. */
  const Empty := Doc("", [], [], [], [], [], false)

  // ---------------------------------------------------------------------
  // The line handlers

  /** processConstBlock: a line starting with a word becomes a list entry
      with the item's rendering; any other line is kept as it is. */
  function ConstEntry(moduleName: string, line: string, lookup: Lookup): string {
    if WordStart(line) then "- `" + TrimSpace(line) + "`: " + lookup(moduleName, line) else line
  }

  /** The entry an annotation line becomes. */
  function FuncEntry(line: string): string {
    "`" + TrimSpace(line) + "`\n"
  }

  /** The error processFuncBlock records for an annotation line: the
      annotation no longer parses once trimmed, or the module has no item
      of that name. */
  function FuncError(moduleName: string, line: string, lookup: Lookup): Option<string> {
    match FuncName(TrimSpace(line))
    case None => Some("invalid function name at " + FuncEntry(line))
    case Some(name) =>
      if lookup(moduleName, name) == "" then Some("function not exist in module:" + FuncEntry(line)) else None
  }

  /** The "invalid function name" error can be recorded: an annotation
      whose return part is a lone space matches before it is trimmed and
      no longer matches after. */
  lemma InvalidNameReachable(moduleName: string, lookup: Lookup)
    ensures FuncAnnot("f() -> ")
    ensures FuncError(moduleName, "f() -> ", lookup) == Some("invalid function name at " + FuncEntry("f() -> "))
    ensures FuncEntry("f() -> ") == "`" + "f() ->" + "`\n"
  {
    LoneSpaceAnnot();
    LoneSpaceTrimmed();
    TrimmedNotAnnot();
  }

  lemma LoneSpaceAnnot()
    ensures FuncAnnot("f() -> ")
  {
    var s := "f() -> ";
    assert WordRun(s, 1) == 0 && WordRun(s, 0) == 1;
    assert SpaceRun(s, 7) == 0 && SpaceRun(s, 6) == 1 && SpaceRun(s, 3) == 1;
    assert s[4..6] == "->" && s[7..] == [];
    assert ArrowTail(s, 3);
  }

  lemma LoneSpaceTrimmed()
    ensures TrimSpace("f() -> ") == "f() ->"
  {
    var s := "f() -> ";
    assert TrimLeft(s, IsUnicodeSpace) == s;
    assert s[..|s| - 1] == "f() ->";
  }

  lemma TrimmedNotAnnot()
    ensures FuncName("f() ->") == None
  {
    var t := "f() ->";
    assert WordRun(t, 1) == 0 && WordRun(t, 0) == 1;
    assert SpaceRun(t, 6) == 0 && SpaceRun(t, 3) == 1;
    assert !ArrowTail(t, 3);
    assert !CloseFrom(t, 6) && !CloseFrom(t, 5) && !CloseFrom(t, 4) && !CloseFrom(t, 3) && !CloseFrom(t, 2);
  }

  function Listed(e: Option<string>): seq<string> {
    if e.Some? then [e.value] else []
  }

  /** processFuncBlock: other lines are kept; an annotation becomes its
      entry, after a separator unless it is the first one. */
  function FuncLine(d: Doc, line: string, lookup: Lookup): (r: Doc)
    ensures r.moduleName == d.moduleName && r.docs == d.docs && r.types == d.types && r.consts == d.consts
  {
    if !FuncAnnot(line) then d.(funcs := d.funcs + [line])
    else
      d.(funcs := d.funcs + (if d.funcHLine then ["---\n"] else []) + [FuncEntry(line)],
         funcHLine := true,
         errs := d.errs + Listed(FuncError(d.moduleName, line, lookup)))
  }

  // ---------------------------------------------------------------------
  // Where each line goes: a reference definition of processBlocks that
  // looks back for the nearest second-level header instead of running the
  // state machine.

  datatype Block = Unknown | TypeBlock | ConstBlock | FuncBlock

  /** The block a line opens, if it is one of the three section headers. */
  function HeaderBlock(line: string): (b: Block)
    ensures b != Unknown ==> Level2Header(line)
  {
    SectionIsLevel2(line, "Types");
    SectionIsLevel2(line, "Constants");
    SectionIsLevel2(line, "Functions");
    if TypesHeader(line) then TypeBlock
    else if ConstantsHeader(line) then ConstBlock
    else if FunctionsHeader(line) then FuncBlock
    else Unknown
  }

  /** The block in force when line i is reached: the one opened by the
      nearest second-level header before it, if that header opens one. */
  function Governing(lines: seq<string>, i: nat): Block
    requires i <= |lines|
  {
    if i == 0 then Unknown
    else if Level2Header(lines[i - 1]) then HeaderBlock(lines[i - 1])
    else Governing(lines, i - 1)
  }

  datatype Dest = Skip | ToDocs | ToTypes | ToConsts | ToFuncs

  function DestOf(b: Block): Dest {
    match b
    case Unknown => ToDocs
    case TypeBlock => ToTypes
    case ConstBlock => ToConsts
    case FuncBlock => ToFuncs
  }

  /** Section headers are dropped, other second-level headers are
      preamble, and every other line goes where the block in force says. */
  function Route(lines: seq<string>, i: nat): Dest
    requires i < |lines|
  {
    if HeaderBlock(lines[i]) != Unknown then Skip
    else if Level2Header(lines[i]) then ToDocs
    else DestOf(Governing(lines, i))
  }

  /** The first n lines routed to `dest`, in order. */
  function Picked(lines: seq<string>, dest: Dest, n: nat): seq<string>
    requires n <= |lines|
  {
    if n == 0 then []
    else Picked(lines, dest, n - 1) + (if Route(lines, n - 1) == dest then [lines[n - 1]] else [])
  }

  /** processFuncBlock applied to each line in turn. */
  function FuncsFold(d: Doc, ls: seq<string>, lookup: Lookup): (r: Doc)
    ensures r.moduleName == d.moduleName && r.docs == d.docs && r.types == d.types && r.consts == d.consts
  {
    if ls == [] then d else FuncLine(FuncsFold(d, ls[..|ls| - 1], lookup), ls[|ls| - 1], lookup)
  }

  function ConstEntries(moduleName: string, ls: seq<string>, lookup: Lookup): seq<string> {
    seq(|ls|, k requires 0 <= k < |ls| => ConstEntry(moduleName, ls[k], lookup))
  }

  /** One line handled at its destination. */
  function Handle(d: Doc, dest: Dest, line: string, lookup: Lookup): Doc {
    match dest
    case Skip => d
    case ToDocs => d.(docs := d.docs + [line])
    case ToTypes => d.(types := d.types + [line])
    case ToConsts => d.(consts := d.consts + [ConstEntry(d.moduleName, line, lookup)])
    case ToFuncs => FuncLine(d, line, lookup)
  }

  /** The docgroup after the first n lines, each handled in turn where it
      is routed. */
  function Routed(d: Doc, lines: seq<string>, n: nat, lookup: Lookup): Doc
    requires n <= |lines|
  {
    if n == 0 then d else Handle(Routed(d, lines, n - 1, lookup), Route(lines, n - 1), lines[n - 1], lookup)
  }

  /** The same docgroup built section by section: each section gets the
      lines routed to it, in order. */
  function Gathered(d: Doc, lines: seq<string>, n: nat, lookup: Lookup): Doc
    requires n <= |lines|
  {
    var f := FuncsFold(d, Picked(lines, ToFuncs, n), lookup);
    f.(docs := d.docs + Picked(lines, ToDocs, n),
       types := d.types + Picked(lines, ToTypes, n),
       consts := d.consts + ConstEntries(d.moduleName, Picked(lines, ToConsts, n), lookup))
  }

  /** One more line is picked when it is routed to the destination. */
  lemma PickedStep(lines: seq<string>, dest: Dest, n: nat)
    requires 0 < n <= |lines|
    ensures Picked(lines, dest, n)
      == if Route(lines, n - 1) == dest then Picked(lines, dest, n - 1) + [lines[n - 1]] else Picked(lines, dest, n - 1)
  {
    if Route(lines, n - 1) != dest {
      assert Picked(lines, dest, n - 1) + [] == Picked(lines, dest, n - 1);
    }
  }

  /** Gathering one more line is handling it at its destination. */
  lemma GatheredStep(d: Doc, lines: seq<string>, n: nat, lookup: Lookup)
    requires 0 < n <= |lines|
    ensures Gathered(d, lines, n, lookup) == Handle(Gathered(d, lines, n - 1, lookup), Route(lines, n - 1), lines[n - 1], lookup)
  {
    match Route(lines, n - 1)
    case Skip => PickedSteps(lines, n);
    case ToDocs => GatheredDocs(d, lines, n, lookup);
    case ToTypes => GatheredTypes(d, lines, n, lookup);
    case ToConsts => GatheredConsts(d, lines, n, lookup);
    case ToFuncs => GatheredFuncs(d, lines, n, lookup);
  }

  lemma PickedSteps(lines: seq<string>, n: nat)
    requires 0 < n <= |lines|
    ensures forall dest {:trigger Picked(lines, dest, n)} ::
      Picked(lines, dest, n) == (if Route(lines, n - 1) == dest then Picked(lines, dest, n - 1) + [lines[n - 1]] else Picked(lines, dest, n - 1))
  {
    PickedStep(lines, Skip, n);
    PickedStep(lines, ToDocs, n);
    PickedStep(lines, ToTypes, n);
    PickedStep(lines, ToConsts, n);
    PickedStep(lines, ToFuncs, n);
  }

  lemma GatheredDocs(d: Doc, lines: seq<string>, n: nat, lookup: Lookup)
    requires 0 < n <= |lines| && Route(lines, n - 1) == ToDocs
    ensures Gathered(d, lines, n, lookup) == Handle(Gathered(d, lines, n - 1, lookup), ToDocs, lines[n - 1], lookup)
  {
    var line := lines[n - 1];
    PickedSteps(lines, n);
    var dl := Picked(lines, ToDocs, n - 1);
    assert d.docs + (dl + [line]) == (d.docs + dl) + [line];
  }

  lemma GatheredTypes(d: Doc, lines: seq<string>, n: nat, lookup: Lookup)
    requires 0 < n <= |lines| && Route(lines, n - 1) == ToTypes
    ensures Gathered(d, lines, n, lookup) == Handle(Gathered(d, lines, n - 1, lookup), ToTypes, lines[n - 1], lookup)
  {
    var line := lines[n - 1];
    PickedSteps(lines, n);
    var tl := Picked(lines, ToTypes, n - 1);
    assert d.types + (tl + [line]) == (d.types + tl) + [line];
  }

  lemma GatheredConsts(d: Doc, lines: seq<string>, n: nat, lookup: Lookup)
    requires 0 < n <= |lines| && Route(lines, n - 1) == ToConsts
    ensures Gathered(d, lines, n, lookup) == Handle(Gathered(d, lines, n - 1, lookup), ToConsts, lines[n - 1], lookup)
  {
    var line := lines[n - 1];
    PickedSteps(lines, n);
    var cl := Picked(lines, ToConsts, n - 1);
    var ce := ConstEntries(d.moduleName, cl, lookup);
    var entry := ConstEntry(d.moduleName, line, lookup);
    ConstEntriesSnoc(d.moduleName, cl, line, lookup);
    assert d.consts + (ce + [entry]) == (d.consts + ce) + [entry];
  }

  lemma GatheredFuncs(d: Doc, lines: seq<string>, n: nat, lookup: Lookup)
    requires 0 < n <= |lines| && Route(lines, n - 1) == ToFuncs
    ensures Gathered(d, lines, n, lookup) == Handle(Gathered(d, lines, n - 1, lookup), ToFuncs, lines[n - 1], lookup)
  {
    var line := lines[n - 1];
    PickedSteps(lines, n);
    var fl := Picked(lines, ToFuncs, n - 1);
    assert (fl + [line])[..|fl|] == fl;
    assert FuncsFold(d, fl + [line], lookup) == FuncLine(FuncsFold(d, fl, lookup), line, lookup);
  }

  /** The entries of one more constants line. */
  lemma ConstEntriesSnoc(moduleName: string, ls: seq<string>, line: string, lookup: Lookup)
    ensures ConstEntries(moduleName, ls + [line], lookup) == ConstEntries(moduleName, ls, lookup) + [ConstEntry(moduleName, line, lookup)]
  {
    var ce := ConstEntries(moduleName, ls, lookup);
    var ce' := ConstEntries(moduleName, ls + [line], lookup);
    forall k | 0 <= k < |ce'| ensures ce'[k] == (ce + [ConstEntry(moduleName, line, lookup)])[k] {
      if k < |ce| {
        assert (ls + [line])[k] == ls[k];
      }
    }
  }

  /** Handling the lines one by one and gathering them section by section
      give the same docgroup. */
  lemma {:induction false} RoutedGathered(d: Doc, lines: seq<string>, n: nat, lookup: Lookup)
    requires n <= |lines|
    ensures Routed(d, lines, n, lookup) == Gathered(d, lines, n, lookup)
  {
    if n > 0 {
      RoutedGathered(d, lines, n - 1, lookup);
      GatheredStep(d, lines, n, lookup);
    }
  }

  /** After a section header, every line up to the next second-level
      header goes to that section. */
  lemma {:induction false} SectionRuns(lines: seq<string>, h: nat, j: nat)
    requires h < j < |lines| && HeaderBlock(lines[h]) != Unknown
    requires forall m :: h < m <= j ==> !Level2Header(lines[m])
    ensures Route(lines, j) == DestOf(HeaderBlock(lines[h]))
  {
    if j - 1 > h {
      SectionRuns(lines, h, j - 1);
    }
  }

  /** Before the first second-level header every line is preamble. */
  lemma {:induction false} PreambleToDocs(lines: seq<string>, j: nat)
    requires j < |lines|
    requires forall m :: 0 <= m <= j ==> !Level2Header(lines[m])
    ensures Route(lines, j) == ToDocs
  {
    if j > 0 {
      PreambleToDocs(lines, j - 1);
    }
  }

  /** The number of annotation lines. */
  function Annotations(ls: seq<string>): nat {
    if ls == [] then 0 else Annotations(ls[..|ls| - 1]) + (if FuncAnnot(ls[|ls| - 1]) then 1 else 0)
  }

  /** The errors the annotation lines record, in order. */
  function FuncErrors(moduleName: string, ls: seq<string>, lookup: Lookup): seq<string> {
    if ls == [] then []
    else
      FuncErrors(moduleName, ls[..|ls| - 1], lookup)
      + (if FuncAnnot(ls[|ls| - 1]) then Listed(FuncError(moduleName, ls[|ls| - 1], lookup)) else [])
  }

  /** Every line of the functions section is kept, one entry each, and
      every annotation but the first one ever seen gets a separator before
      it; the separator flag records whether an annotation was seen. */
  lemma {:induction false} FuncsFoldEntries(d: Doc, ls: seq<string>, lookup: Lookup)
    ensures var r := FuncsFold(d, ls, lookup);
      var a := Annotations(ls);
      && |r.funcs| == |d.funcs| + |ls| + a - (if a > 0 && !d.funcHLine then 1 else 0)
      && (r.funcHLine <==> d.funcHLine || a > 0)
  {
    if ls != [] {
      FuncsFoldEntries(d, ls[..|ls| - 1], lookup);
    }
  }

  /** The errors recorded are those of the annotation lines. */
  lemma {:induction false} FuncsFoldErrors(d: Doc, ls: seq<string>, lookup: Lookup)
    ensures FuncsFold(d, ls, lookup).errs == d.errs + FuncErrors(d.moduleName, ls, lookup)
  {
    if ls != [] {
      FuncsFoldErrors(d, ls[..|ls| - 1], lookup);
    }
  }

  /** No error is recorded exactly when every annotation names an item of
      the module. */
  lemma {:induction false} FuncErrorsNone(moduleName: string, ls: seq<string>, lookup: Lookup)
    ensures FuncErrors(moduleName, ls, lookup) == [] <==>
      forall k :: 0 <= k < |ls| && FuncAnnot(ls[k]) ==> FuncError(moduleName, ls[k], lookup).None?
  {
    if ls != [] {
      var init := ls[..|ls| - 1];
      FuncErrorsNone(moduleName, init, lookup);
      assert forall k :: 0 <= k < |init| ==> init[k] == ls[k];
    }
  }

  // ---------------------------------------------------------------------
  // process and formatComments

  /** The three section headers process seeds. */
  function Seeded(d: Doc): Doc {
    d.(types := d.types + ["## Types\n"], consts := d.consts + ["## Constants\n"], funcs := d.funcs + ["## Functions\n"])
  }

  /** The lines of all comments, each split at its line breaks. */
  function SplitAll(comments: seq<string>): seq<string> {
    if comments == [] then [] else SplitAll(comments[..|comments| - 1]) + SplitLines(comments[|comments| - 1])
  }

  /** The first module header at or after i. */
  function FirstModuleHeader(lines: seq<string>, i: nat): (r: Option<nat>)
    requires i <= |lines|
    ensures r.Some? ==>
      && i <= r.value < |lines| && ModuleName(lines[r.value]).Some?
      && forall k {:trigger ModuleName(lines[k])} :: i <= k < r.value ==> ModuleName(lines[k]).None?
    ensures r.None? ==> forall k {:trigger ModuleName(lines[k])} :: i <= k < |lines| ==> ModuleName(lines[k]).None?
    decreases |lines| - i
  {
    if i == |lines| then None
    else if ModuleName(lines[i]).Some? then Some(i)
    else FirstModuleHeader(lines, i + 1)
  }

  function ModuleTitle(name: string): string {
    "# `" + name + "` Module"
  }

  /** process: the lines before the module header are preamble, the header
      becomes the page title, and the lines after it go through
      processBlocks; without a header every line is preamble. */
  function Processed(d: Doc, comments: seq<string>, lookup: Lookup): Doc {
    var s := Seeded(d);
    var lines := SplitAll(comments);
    match FirstModuleHeader(lines, 0)
    case None => s.(docs := s.docs + lines)
    case Some(h) => Routed(Opened(d, lines, h), lines[h + 1..], |lines[h + 1..]|, lookup)
  }

  /** The docgroup once the module header at h is met: the seeded
      sections, the module's name, and the lines before the header with
      the page title after them as preamble. */
  function Opened(d: Doc, lines: seq<string>, h: nat): (r: Doc)
    requires h < |lines| && ModuleName(lines[h]).Some?
    ensures r.moduleName == ModuleName(lines[h]).value
  {
    var name := ModuleName(lines[h]).value;
    Seeded(d).(moduleName := name, docs := d.docs + lines[..h] + [ModuleTitle(name)])
  }

  /** An entry made of line breaks only, the entries strings.Trim(s, "\n")
      empties. */
  predicate Blank(s: string) {
    forall i :: 0 <= i < |s| ==> s[i] == '\n'
  }

  /** The entries left once the trailing blank ones are dropped. */
  function DropBlank(fs: seq<string>): (r: seq<string>)
    ensures |r| <= |fs| && r == fs[..|r|]
    ensures r == [] || !Blank(r[|r| - 1])
    ensures forall k {:trigger Blank(fs[k])} :: |r| <= k < |fs| ==> Blank(fs[k])
  {
    if fs != [] && Blank(fs[|fs| - 1]) then DropBlank(fs[..|fs| - 1]) else fs
  }

  /** A section is printed only when it holds more than its header. */
  function Section(entries: seq<string>): seq<string> {
    if |entries| > 1 then entries else []
  }

  datatype Formatted = Formatted(lines: seq<string>) | Failed(message: string)

  /** The end of formatComments: the recorded errors, joined by line
      breaks, or the page: preamble, then the types, constants and
      functions sections. */
  function Assembled(d: Doc): Formatted {
    if |d.errs| > 0 then Failed(Join(d.errs, "\n"))
    else Formatted(d.docs + Section(d.types) + Section(d.consts) + Section(DropBlank(d.funcs)))
  }

  /** formatComments: process the comments in a zero docgroup, then
      assemble the page. */
  function Format(comments: seq<string>, lookup: Lookup): Formatted {
    Assembled(Processed(Empty, comments, lookup))
  }

  /** The functions section's header is never dropped as blank. */
  lemma FunctionsHeaderKept()
    ensures DropBlank(["## Functions\n"]) == ["## Functions\n"]
  {
    assert !Blank("## Functions\n") by {
      assert "## Functions\n"[3] != '\n';
    }
  }

  /** process without a module header: every line is preamble. */
  lemma ProcessedNone(d: Doc, comments: seq<string>, lookup: Lookup)
    requires forall k {:trigger ModuleName(SplitAll(comments)[k])} :: 0 <= k < |SplitAll(comments)| ==>
      ModuleName(SplitAll(comments)[k]).None?
    ensures Processed(d, comments, lookup) == Seeded(d).(docs := d.docs + SplitAll(comments))
  {
    var r := FirstModuleHeader(SplitAll(comments), 0);
  }

  /** process with its first module header at h: the preamble, the title,
      then processBlocks on the lines after the header. */
  lemma ProcessedAt(d: Doc, comments: seq<string>, lookup: Lookup, h: nat)
    requires h < |SplitAll(comments)| && ModuleName(SplitAll(comments)[h]).Some?
    requires forall k {:trigger ModuleName(SplitAll(comments)[k])} :: 0 <= k < h ==>
      ModuleName(SplitAll(comments)[k]).None?
    ensures var lines := SplitAll(comments);
      Processed(d, comments, lookup) == Routed(Opened(d, lines, h), lines[h + 1..], |lines[h + 1..]|, lookup)
  {
    var lines := SplitAll(comments);
    var r := FirstModuleHeader(lines, 0);
    assert r == Some(h);
  }

  /** Without a module header the page is the comments' lines as they are. */
  lemma FormatWithoutModule(comments: seq<string>, lookup: Lookup)
    requires FirstModuleHeader(SplitAll(comments), 0).None?
    ensures Format(comments, lookup) == Formatted(SplitAll(comments))
  {
    var lines := SplitAll(comments);
    ProcessedNone(Empty, comments, lookup);
    var d := Processed(Empty, comments, lookup);
    assert d.docs == lines by {
      assert Empty.docs + lines == lines;
    }
    assert d.errs == [];
    FunctionsHeaderKept();
    assert Section(d.types) + Section(d.consts) + Section(DropBlank(d.funcs)) == [];
    assert d.docs + [] == lines;
  }

  /** The docgroup process leaves for a module whose header is line h:
      the preamble, the title and the lines routed to the preamble; each
      section's header followed by what was routed to it; and the errors
      of the functions section's annotations. */
  lemma ProcessedModule(comments: seq<string>, lookup: Lookup, h: nat)
    requires FirstModuleHeader(SplitAll(comments), 0) == Some(h)
    ensures var lines := SplitAll(comments);
      var name := ModuleName(lines[h]).value;
      var rest := lines[h + 1..];
      var n := |rest|;
      var d := Processed(Empty, comments, lookup);
      && d.docs == lines[..h] + [ModuleTitle(name)] + Picked(rest, ToDocs, n)
      && d.types == ["## Types\n"] + Picked(rest, ToTypes, n)
      && d.consts == ["## Constants\n"] + ConstEntries(name, Picked(rest, ToConsts, n), lookup)
      && d.errs == FuncErrors(name, Picked(rest, ToFuncs, n), lookup)
  {
    var lines := SplitAll(comments);
    var rest := lines[h + 1..];
    ProcessedAt(Empty, comments, lookup, h);
    RoutedGathered(Opened(Empty, lines, h), rest, |rest|, lookup);
    OpenedGathered(lines, h, lookup);
  }

  /** The sections of a module's page, gathered from the lines after its
      header. */
  lemma OpenedGathered(lines: seq<string>, h: nat, lookup: Lookup)
    requires h < |lines| && ModuleName(lines[h]).Some?
    ensures var name := ModuleName(lines[h]).value;
      var rest := lines[h + 1..];
      var n := |rest|;
      var d := Gathered(Opened(Empty, lines, h), rest, n, lookup);
      && d.docs == lines[..h] + [ModuleTitle(name)] + Picked(rest, ToDocs, n)
      && d.types == ["## Types\n"] + Picked(rest, ToTypes, n)
      && d.consts == ["## Constants\n"] + ConstEntries(name, Picked(rest, ToConsts, n), lookup)
      && d.errs == FuncErrors(name, Picked(rest, ToFuncs, n), lookup)
  {
    var name := ModuleName(lines[h]).value;
    var rest := lines[h + 1..];
    var s := Opened(Empty, lines, h);
    assert s.docs == lines[..h] + [ModuleTitle(name)] by {
      assert Empty.docs + lines[..h] == lines[..h];
    }
    FuncsFoldErrors(s, Picked(rest, ToFuncs, |rest|), lookup);
  }

  /** The page of a module: the preamble, the title, the lines routed to
      the preamble, then each section that received a line, under its
      header. */
  lemma FormatSections(comments: seq<string>, lookup: Lookup)
    requires FirstModuleHeader(SplitAll(comments), 0).Some?
    requires Format(comments, lookup).Formatted?
    ensures var lines := SplitAll(comments);
      var h := FirstModuleHeader(lines, 0).value;
      var name := ModuleName(lines[h]).value;
      var rest := lines[h + 1..];
      var n := |rest|;
      var d := Processed(Empty, comments, lookup);
      Format(comments, lookup).lines
        == lines[..h] + [ModuleTitle(name)] + Picked(rest, ToDocs, n)
           + Section(["## Types\n"] + Picked(rest, ToTypes, n))
           + Section(["## Constants\n"] + ConstEntries(name, Picked(rest, ToConsts, n), lookup))
           + Section(DropBlank(d.funcs))
  {
    var lines := SplitAll(comments);
    var h := FirstModuleHeader(lines, 0).value;
    var name := ModuleName(lines[h]).value;
    var rest := lines[h + 1..];
    var d := Processed(Empty, comments, lookup);
    ProcessedModule(comments, lookup, h);
    assert Format(comments, lookup).lines == d.docs + Section(d.types) + Section(d.consts) + Section(DropBlank(d.funcs));
  }

  /** A module's page fails exactly when an annotation of its functions
      section fails to name an item of the module. */
  lemma FormatFailsAt(comments: seq<string>, lookup: Lookup, h: nat)
    requires FirstModuleHeader(SplitAll(comments), 0) == Some(h)
    ensures var lines := SplitAll(comments);
      var fl := Picked(lines[h + 1..], ToFuncs, |lines[h + 1..]|);
      Format(comments, lookup).Failed? <==>
        exists k :: 0 <= k < |fl| && FuncAnnot(fl[k]) && FuncError(ModuleName(lines[h]).value, fl[k], lookup).Some?
  {
    var lines := SplitAll(comments);
    var name := ModuleName(lines[h]).value;
    var fl := Picked(lines[h + 1..], ToFuncs, |lines[h + 1..]|);
    var d := Processed(Empty, comments, lookup);
    ProcessedModule(comments, lookup, h);
    assert Format(comments, lookup).Failed? <==> d.errs != [];
    assert d.errs == FuncErrors(name, fl, lookup);
    FuncErrorsNone(name, fl, lookup);
  }

  /** formatComments fails only for a module, and then exactly when an
      annotation of the functions section fails to name an item of the
      module. */
  lemma FormatFails(comments: seq<string>, lookup: Lookup)
    ensures var lines := SplitAll(comments);
      Format(comments, lookup).Failed? <==>
        match FirstModuleHeader(lines, 0)
        case None => false
        case Some(h) =>
          var fl := Picked(lines[h + 1..], ToFuncs, |lines[h + 1..]|);
          exists k :: 0 <= k < |fl| && FuncAnnot(fl[k]) && FuncError(ModuleName(lines[h]).value, fl[k], lookup).Some?
  {
    match FirstModuleHeader(SplitAll(comments), 0)
    case None =>
      ProcessedNone(Empty, comments, lookup);
    case Some(h) =>
      FormatFailsAt(comments, lookup, h);
  }

  /** The first loop of process: the lines of all comments. */
  method SplitComments(comments: seq<string>) returns (lines: seq<string>)
    ensures lines == SplitAll(comments)
  {
    lines := [];
    var j := 0;
    while j < |comments|
      invariant 0 <= j <= |comments| && lines == SplitAll(comments[..j])
    {
      assert comments[..j + 1][..j] == comments[..j];
      lines := lines + SplitLines(comments[j]);
      j := j + 1;
    }
    assert comments[..|comments|] == comments;
  }

  /** The search of process's second loop: the first line that is a
      module header. */
  method FindModuleHeader(lines: seq<string>) returns (h: Option<nat>)
    ensures h == FirstModuleHeader(lines, 0)
  {
    var i := 0;
    while i < |lines|
      invariant 0 <= i <= |lines|
      invariant FirstModuleHeader(lines, 0) == FirstModuleHeader(lines, i)
    {
      if ModuleName(lines[i]).Some? {
        return Some(i);
      }
      i := i + 1;
    }
    return None;
  }

  // ---------------------------------------------------------------------
  // The docgroup

  class DocGroup {
    var moduleName: string
    var docs: seq<string>
    var types: seq<string>
    var consts: seq<string>
    var funcs: seq<string>
    var errs: seq<string>
    var funcHLine: bool
    const lookup: Lookup

    function State(): Doc
      reads this
    {
      Doc(moduleName, docs, types, consts, funcs, errs, funcHLine)
    }

    /** The zero docgroup. */
    constructor (lookup: Lookup)
      ensures State() == Empty && this.lookup == lookup
    {
      moduleName, docs, types, consts, funcs, errs, funcHLine := "", [], [], [], [], [], false;
      this.lookup := lookup;
    }

    method AddError(msg: string)
      modifies this`errs
      ensures errs == old(errs) + [msg]
    {
      errs := errs + [msg];
    }

    method Process(comments: seq<string>)
      modifies this
      ensures State() == Processed(old(State()), comments, lookup)
    {
      types := types + ["## Types\n"];
      consts := consts + ["## Constants\n"];
      funcs := funcs + ["## Functions\n"];
      var lines := SplitComments(comments);
      var h := FindModuleHeader(lines);
      if h.None? {
        docs := docs + lines;
        ProcessedNone(old(State()), comments, lookup);
        return;
      }
      var i := h.value;
      var name := ModuleName(lines[i]).value;
      moduleName := name;
      docs := docs + lines[..i] + [ModuleTitle(name)];
      ProcessedAt(old(State()), comments, lookup, i);
      assert State() == Opened(old(State()), lines, i);
      ProcessBlocks(lines[i + 1..]);
    }

    method ProcessBlocks(lines: seq<string>)
      modifies this
      ensures State() == Routed(old(State()), lines, |lines|, lookup)
    {
      ghost var d0 := State();
      var block := Unknown;
      var i := 0;
      while i < |lines|
        invariant 0 <= i <= |lines|
        invariant State() == Routed(d0, lines, i, lookup)
        invariant block == Governing(lines, i) || (block == Unknown && i < |lines| && Level2Header(lines[i]))
        decreases 2 * (|lines| - i) + (if block == Unknown then 0 else 1)
      {
        i, block := BlockStep(lines, i, block, d0);
      }
    }

    /** One turn of processBlocks' loop: line i read in state `block`. A
        second-level header inside a section steps the index back so that
        the same line is read again in the unknown state. */
    method BlockStep(lines: seq<string>, i: nat, block: Block, ghost d0: Doc) returns (next: nat, nextBlock: Block)
      requires i < |lines| && State() == Routed(d0, lines, i, lookup)
      requires block == Governing(lines, i) || (block == Unknown && Level2Header(lines[i]))
      modifies this
      ensures next <= |lines| && State() == Routed(d0, lines, next, lookup)
      ensures nextBlock == Governing(lines, next) || (nextBlock == Unknown && next < |lines| && Level2Header(lines[next]))
      ensures 2 * (|lines| - next) + (if nextBlock == Unknown then 0 else 1)
            < 2 * (|lines| - i) + (if block == Unknown then 0 else 1)
    {
      var line := lines[i];
      next, nextBlock := i, block;
      if block == Unknown {
        if TypesHeader(line) {
          nextBlock := TypeBlock;
        } else if ConstantsHeader(line) {
          nextBlock := ConstBlock;
        } else if FunctionsHeader(line) {
          nextBlock := FuncBlock;
        } else {
          docs := docs + [line];
        }
      } else if Level2Header(line) {
        if next > 0 {
          next := next - 1;
        }
        nextBlock := Unknown;
      } else {
        assert Route(lines, i) == DestOf(block);
        match block
        case TypeBlock => ProcessTypeBlock(line);
        case ConstBlock => ProcessConstBlock(line);
        case FuncBlock => ProcessFuncBlock(line);
      }
      next := next + 1;
      assert next == i + 1 || (next == i && nextBlock == Unknown);
    }

    method ProcessTypeBlock(line: string)
      modifies this`types
      ensures types == old(types) + [line]
    {
      types := types + [line];
    }

    method ProcessConstBlock(line: string)
      modifies this`consts
      ensures consts == old(consts) + [ConstEntry(moduleName, line, lookup)]
    {
      if !WordStart(line) {
        consts := consts + [line];
        return;
      }
      var entry := "- `" + TrimSpace(line) + "`: " + lookup(moduleName, line);
      consts := consts + [entry];
    }

    method ProcessFuncBlock(line: string)
      modifies this`funcs, this`funcHLine, this`errs
      ensures State() == FuncLine(old(State()), line, lookup)
    {
      if !FuncAnnot(line) {
        funcs := funcs + [line];
        return;
      }
      ghost var d := State();
      ghost var err := FuncError(moduleName, line, lookup);
      var trimmed := TrimSpace(line);
      var parts := FuncName(trimmed);
      var entry := "`" + trimmed + "`\n";
      assert entry == FuncEntry(line);
      if funcHLine {
        funcs := funcs + ["---\n"];
      } else {
        funcHLine := true;
      }
      assert funcs == d.funcs + (if d.funcHLine then ["---\n"] else []);
      if parts.None? {
        assert err == Some("invalid function name at " + entry);
        AddError("invalid function name at " + entry);
      } else if lookup(moduleName, parts.value) == "" {
        assert err == Some("function not exist in module:" + entry);
        AddError("function not exist in module:" + entry);
      } else {
        assert err == None;
      }
      assert errs == d.errs + Listed(err);
      funcs := funcs + [entry];
      assert State() == d.(funcs := funcs, funcHLine := true, errs := errs);
    }

    /** The loop of formatComments that pops trailing blank entries off the
        functions section. */
    method DropBlankFuncs()
      modifies this`funcs
      ensures funcs == DropBlank(old(funcs))
    {
      while |funcs| > 0
        invariant DropBlank(funcs) == DropBlank(old(funcs))
        decreases |funcs|
      {
        var s := TrimNewlines(funcs[|funcs| - 1]);
        TrimNewlinesEmpty(funcs[|funcs| - 1]);
        if s == "" {
          funcs := funcs[..|funcs| - 1];
        } else {
          break;
        }
      }
    }

    /** The end of formatComments: fail with the recorded errors, or drop
        the trailing blank function entries and put the page together. */
    method Assemble() returns (r: Formatted)
      modifies this`funcs
      ensures r == Assembled(old(State()))
    {
      if |errs| > 0 {
        return Failed(Join(errs, "\n"));
      }
      ghost var d := State();
      DropBlankFuncs();
      var p: seq<string> := [];
      p := p + docs;
      assert p == d.docs;
      if |types| > 1 {
        p := p + types;
      }
      assert p == d.docs + Section(d.types);
      if |consts| > 1 {
        p := p + consts;
      }
      assert p == d.docs + Section(d.types) + Section(d.consts);
      if |funcs| > 1 {
        p := p + funcs;
      }
      return Formatted(p);
    }
  }

  method FormatComments(comments: seq<string>, lookup: Lookup) returns (r: Formatted)
    ensures r == Format(comments, lookup)
  {
    var d := new DocGroup(lookup);
    d.Process(comments);
    r := d.Assemble();
  }

  // ---------------------------------------------------------------------
  // The order of the package's files

  /** Go's `<` on strings: lexicographic order, on code points here, which
      for valid UTF-8 is the order of the encoded bytes. */
  predicate LexLess(a: string, b: string)
    decreases |a|
  {
    if a == [] then b != []
    else b != [] && (a[0] < b[0] || (a[0] == b[0] && LexLess(a[1..], b[1..])))
  }

  lemma {:induction false} LexIrreflexive(a: string)
    ensures !LexLess(a, a)
  {
    if a != [] {
      LexIrreflexive(a[1..]);
    }
  }

  lemma {:induction false} LexTransitive(a: string, b: string, c: string)
    requires LexLess(a, b) && LexLess(b, c)
    ensures LexLess(a, c)
  {
    if a != [] && a[0] == b[0] && b[0] == c[0] {
      LexTransitive(a[1..], b[1..], c[1..]);
    }
  }

  lemma {:induction false} LexTotal(a: string, b: string)
    requires a != b
    ensures LexLess(a, b) || LexLess(b, a)
  {
    if a != [] && b != [] && a[0] == b[0] {
      assert a == [a[0]] + a[1..] && b == [b[0]] + b[1..];
      LexTotal(a[1..], b[1..]);
    }
  }

  /** The less-function sortedFiles hands to sort.Slice, as written. */
  predicate FileLess(ni: string, nj: string) {
    if ni == "doc.go" then true
    else if ni == "module.go" then nj != "doc.go"
    else if nj == "doc.go" || nj == "module.go" then true
    else LexLess(ni, nj)
  }

  /** It is not a strict order: doc.go precedes itself, and an ordinary
      file and doc.go (or module.go) each precede the other. */
  lemma FileLessNotStrict()
    ensures FileLess("doc.go", "doc.go")
    ensures FileLess("a.go", "doc.go") && FileLess("doc.go", "a.go")
    ensures FileLess("a.go", "module.go") && FileLess("module.go", "a.go")
  {
  }

  /** doc.go first, module.go second, every other name after them. */
  function FileRank(name: string): (r: nat)
    ensures r <= 2
  {
    if name == "doc.go" then 0 else if name == "module.go" then 1 else 2
  }

  /** The order the comment above the sort states: doc.go, then module.go,
      then the other names alphabetically. */
  predicate FileLessFixed(ni: string, nj: string) {
    FileRank(ni) < FileRank(nj) || (FileRank(ni) == 2 && FileRank(nj) == 2 && LexLess(ni, nj))
  }

  /** The corrected less-function is a strict total order, as sort.Slice
      needs. */
  lemma FileOrder(a: string, b: string, c: string)
    ensures !FileLessFixed(a, a)
    ensures FileLessFixed(a, b) ==> !FileLessFixed(b, a)
    ensures FileLessFixed(a, b) && FileLessFixed(b, c) ==> FileLessFixed(a, c)
    ensures a != b ==> FileLessFixed(a, b) || FileLessFixed(b, a)
  {
    LexIrreflexive(a);
    if FileLessFixed(a, b) && FileLessFixed(b, a) {
      LexTransitive(a, b, a);
    }
    if FileLessFixed(a, b) && FileLessFixed(b, c) && FileRank(a) == 2 && FileRank(c) == 2 {
      LexTransitive(a, b, c);
    }
    if a != b && FileRank(a) == 2 && FileRank(b) == 2 {
      LexTotal(a, b);
    }
  }

  /** The corrected function differs from the source's only where the
      source's is wrong: when an ordinary name is compared with doc.go or
      module.go, and when doc.go or module.go is compared with itself. */
  lemma FileLessAgrees(ni: string, nj: string)
    requires ni != nj
    requires !(FileRank(ni) == 2 && FileRank(nj) < 2)
    ensures FileLess(ni, nj) == FileLessFixed(ni, nj)
  {
  }
}
