/**
 * What `parseMarkdownContent` (src/utils/markdownParser.ts) reads back from
 * the markdown the editor exports (src/pages/OutlineEditor.tsx).  The two are
 * not inverse: the export writes each section one `#` deeper than its level,
 * so a re-parse sees every level shifted by one, loses sections of level 5 and
 * deeper (six or more `#` are not a heading), strips an `H<n>:` token that
 * happens to match the shifted level, and drops the briefs and the ids.
 */
module ExportReparse {
  import opened Wrappers
  import opened Text
  import opened OutlineModel
  import opened MarkdownParser
  import opened OutlineEditor

  // ---------------------------------------------------------------------------
  // The export as lines

  /** The lines one section's export consists of, each followed by a newline. */
  function SectionLines(s: Section): seq<string>
    requires s.level >= -1
  {
    if HasBrief(s) then [SectionHeading(s), "", s.brief.value, ""] else [SectionHeading(s), ""]
  }

  function SectionsLines(sections: seq<Section>): seq<string>
    requires LevelsExportable(sections)
  {
    if sections == [] then []
    else SectionsLines(sections[..|sections| - 1]) + SectionLines(sections[|sections| - 1])
  }

  function ExportLines(o: Outline): seq<string>
    requires Exportable(o)
  {
    [TitleMarker + o.title, ""] + SectionsLines(o.sections)
  }

  lemma SectionLinesText(s: Section)
    requires s.level >= -1
    ensures Terminated(SectionLines(s)) == SectionText(s)
  {
    var h := SectionHeading(s);
    assert Terminated([""]) == "\n" by {
      assert [""][1..] == [];
    }
    if HasBrief(s) {
      var b := s.brief.value;
      assert [h, "", b, ""][1..] == ["", b, ""];
      assert ["", b, ""][1..] == [b, ""];
      assert [b, ""][1..] == [""];
      assert Terminated([b, ""]) == b + "\n" + "\n";
      assert Terminated(["", b, ""]) == "\n" + b + "\n\n";
    } else {
      assert [h, ""][1..] == [""];
    }
  }

  lemma {:induction false} SectionsLinesText(sections: seq<Section>)
    requires LevelsExportable(sections)
    ensures Terminated(SectionsLines(sections)) == SectionsText(sections)
  {
    if sections != [] {
      var last := |sections| - 1;
      SectionsLinesText(sections[..last]);
      SectionLinesText(sections[last]);
      TerminatedAppend(SectionsLines(sections[..last]), SectionLines(sections[last]));
    }
  }

  /** The exported text is the export's lines, each followed by a newline. */
  lemma ExportLinesText(o: Outline)
    requires Exportable(o)
    ensures ExportText(o) == Terminated(ExportLines(o))
  {
    var head := [TitleMarker + o.title, ""];
    SectionsLinesText(o.sections);
    TerminatedAppend(head, SectionsLines(o.sections));
    assert Terminated(head) == TitleMarker + o.title + "\n" + "" + "\n" + "" by {
      assert head[1..] == [""];
    }
  }

  // ---------------------------------------------------------------------------
  // When the export reads back line by line

  /** Text the export writes on a line of its own that a trim leaves as it is at its end: non-empty, no newline, no trailing whitespace. */
  predicate CleanLine(s: string) {
    s != [] && '\n' !in s && !IsSpace(s[|s| - 1])
  }

  /** A brief the parse reads as plain text: a single line that is neither a heading nor a title once trimmed. */
  predicate PlainBrief(b: Option<string>) {
    b.Some? ==> '\n' !in b.value && HeadingLevel(Trim(b.value)) == 0
  }

  /** A section whose export is one heading line, at least two `#` deep, and plain brief text. */
  predicate SectionReady(s: Section) {
    s.level >= 1 && CleanLine(s.title) && PlainBrief(s.brief)
  }

  predicate SectionsReady(sections: seq<Section>) {
    forall i :: 0 <= i < |sections| ==> SectionReady(sections[i])
  }

  predicate ReparseReady(o: Outline) {
    CleanLine(o.title) && SectionsReady(o.sections)
  }

  predicate NewlineFree(lines: seq<string>) {
    forall i :: 0 <= i < |lines| ==> '\n' !in lines[i]
  }

  /** No line is a `# ` line once trimmed, so none can set the title. */
  predicate NoTitleLine(lines: seq<string>) {
    forall i :: 0 <= i < |lines| ==> !StartsWith(Trim(lines[i]), TitleMarker)
  }

  lemma SectionsReadyPrefix(sections: seq<Section>, n: nat)
    requires SectionsReady(sections) && n <= |sections|
    ensures SectionsReady(sections[..n]) && LevelsExportable(sections[..n])
  {
    assert forall i :: 0 <= i < n ==> sections[..n][i] == sections[i];
  }

  lemma RepeatNewlineFree(n: nat)
    ensures '\n' !in Repeat('#', n)
  {
    var r := Repeat('#', n);
    assert forall i :: 0 <= i < |r| ==> r[i] != '\n';
  }

  /** A heading line is its depth in `#`, a space and the title. */
  lemma HeadingParts(s: Section)
    requires s.level >= -1
    ensures var h, depth := SectionHeading(s), s.level + 1;
      && |h| == depth + 1 + |s.title|
      && (forall i :: 0 <= i < depth ==> h[i] == '#')
      && h[depth] == ' '
      && h[depth + 1..] == s.title
  {
    var r := Repeat('#', s.level + 1);
    assert SectionHeading(s) == r + (" " + s.title);
  }

  /** A heading line trims to itself, has no newline, and its leading run of `#` is its depth. */
  lemma HeadingShape(s: Section)
    requires s.level >= 1 && CleanLine(s.title)
    ensures var h, depth := SectionHeading(s), s.level + 1;
      && '\n' !in h
      && LeadingRun(h, Hash) == depth < |h| && h[depth] == ' '
      && h[depth + 1..] == s.title
  {
    var h, depth := SectionHeading(s), s.level + 1;
    HeadingParts(s);
    assert forall i :: 0 <= i < |h| ==> h[i] != '\n' by {
      assert forall i :: depth < i < |h| ==> h[i] == s.title[i - depth - 1];
    }
    assert forall i :: 0 <= i < depth ==> InClass(h[i], Hash);
  }

  /** A heading line is its own trim. */
  lemma HeadingTrim(s: Section)
    requires s.level >= 1 && CleanLine(s.title)
    ensures Trim(SectionHeading(s)) == SectionHeading(s)
  {
    var h := SectionHeading(s);
    HeadingParts(s);
    assert h[|h| - 1] == s.title[|s.title| - 1];
    TrimOfTrimmed(h);
  }

  /** A heading line is at least two `#` deep, so it is not a `# ` line. */
  lemma HeadingNotTitle(s: Section)
    requires s.level >= 1 && CleanLine(s.title)
    ensures !StartsWith(Trim(SectionHeading(s)), TitleMarker)
  {
    HeadingNoTitleMarker(s);
    HeadingTrim(s);
  }

  lemma HeadingNoTitleMarker(s: Section)
    requires s.level >= 1
    ensures !StartsWith(SectionHeading(s), TitleMarker)
  {
    HeadingParts(s);
    assert SectionHeading(s)[1] != TitleMarker[1];
  }

  /** Read as a trimmed line, a heading line gives its depth and its title without that depth's token, if the depth is at most five. */
  lemma MdHeadingOfHeading(s: Section)
    requires s.level >= 1 && CleanLine(s.title)
    ensures var h, depth := SectionHeading(s), s.level + 1;
      MdHeading(h) == if depth <= 5 then Some((depth, StripHToken(s.title, depth))) else None
  {
    var h := SectionHeading(s);
    HeadingShape(s);
    HeadingLevelIsHashCount(h);
    if s.level + 1 <= 5 {
      HeadingTitle(h);
    }
  }

  lemma NewlineFreeAppend(a: seq<string>, b: seq<string>)
    requires NewlineFree(a) && NewlineFree(b)
    ensures NewlineFree(a + b)
  {
    assert forall i :: 0 <= i < |a + b| ==> (a + b)[i] == if i < |a| then a[i] else b[i - |a|];
  }

  lemma NoTitleLineAppend(a: seq<string>, b: seq<string>)
    requires NoTitleLine(a) && NoTitleLine(b)
    ensures NoTitleLine(a + b)
  {
    assert forall i :: 0 <= i < |a + b| ==> (a + b)[i] == if i < |a| then a[i] else b[i - |a|];
  }

  lemma SectionLinesNewlineFree(s: Section)
    requires SectionReady(s)
    ensures NewlineFree(SectionLines(s))
  {
    HeadingShape(s);
  }

  /** A brief that is not a heading is not a `# ` line either. */
  lemma PlainBriefNotTitle(b: string)
    requires PlainBrief(Some(b))
    ensures !StartsWith(Trim(b), TitleMarker)
  {
    MarkerIsLiteral(1);
  }

  lemma SectionLinesNoTitle(s: Section)
    requires SectionReady(s)
    ensures NoTitleLine(SectionLines(s))
  {
    var lines := SectionLines(s);
    forall i | 0 <= i < |lines|
      ensures !StartsWith(Trim(lines[i]), TitleMarker)
    {
      if i == 0 {
        HeadingNotTitle(s);
      } else if i == 2 {
        PlainBriefNotTitle(s.brief.value);
      } else {
        assert lines[i] == [];
      }
    }
  }

  lemma {:induction false} SectionsLinesNewlineFree(sections: seq<Section>)
    requires SectionsReady(sections)
    ensures LevelsExportable(sections) && NewlineFree(SectionsLines(sections))
  {
    SectionsReadyPrefix(sections, |sections|);
    assert sections[..|sections|] == sections;
    if sections != [] {
      var last := |sections| - 1;
      SectionsReadyPrefix(sections, last);
      SectionsLinesNewlineFree(sections[..last]);
      SectionLinesNewlineFree(sections[last]);
      NewlineFreeAppend(SectionsLines(sections[..last]), SectionLines(sections[last]));
    }
  }

  lemma {:induction false} SectionsLinesNoTitle(sections: seq<Section>)
    requires SectionsReady(sections)
    ensures LevelsExportable(sections) && NoTitleLine(SectionsLines(sections))
  {
    SectionsReadyPrefix(sections, |sections|);
    assert sections[..|sections|] == sections;
    if sections != [] {
      var last := |sections| - 1;
      SectionsReadyPrefix(sections, last);
      SectionsLinesNoTitle(sections[..last]);
      SectionLinesNoTitle(sections[last]);
      NoTitleLineAppend(SectionsLines(sections[..last]), SectionLines(sections[last]));
    }
  }

  lemma {:induction false} NonBlankNoTitle(lines: seq<string>)
    requires NoTitleLine(lines)
    ensures NoTitleLine(NonBlank(lines))
  {
    if lines != [] {
      var rest := NonBlank(lines[1..]);
      assert NoTitleLine(lines[1..]) by {
        assert forall i :: 0 <= i < |lines| - 1 ==> lines[1..][i] == lines[i + 1];
      }
      NonBlankNoTitle(lines[1..]);
      if !IsBlank(lines[0]) {
        assert NonBlank(lines) == [lines[0]] + rest;
        NoTitleLineCons(lines[0], rest);
      }
    }
  }

  lemma NoTitleLineCons(x: string, rest: seq<string>)
    requires !StartsWith(Trim(x), TitleMarker) && NoTitleLine(rest)
    ensures NoTitleLine([x] + rest)
  {
    var all := [x] + rest;
    forall i | 0 <= i < |all|
      ensures !StartsWith(Trim(all[i]), TitleMarker)
    {
      if i == 0 {
        assert all[i] == x;
      } else {
        assert all[i] == rest[i - 1];
      }
    }
  }

  lemma {:induction false} FirstTitleNone(lines: seq<string>)
    requires NoTitleLine(lines)
    ensures FirstTitle(lines) == []
  {
    if lines != [] {
      FirstTitleNone(lines[1..]);
    }
  }

  // ---------------------------------------------------------------------------
  // The headings of a list of lines

  /** The heading a single line gives when read on its own, if any. */
  function HeadingOf(line: string): Option<(int, string)> {
    MdHeading(Trim(line))
  }

  /** The values `f` gives for `lines`, in order, skipping the lines it gives nothing for. */
  function Pick<T>(f: string -> Option<T>, lines: seq<string>): seq<T> {
    if lines == [] then [] else Emitted(f(lines[0])) + Pick(f, lines[1..])
  }

  lemma {:induction false} PickAppend<T>(f: string -> Option<T>, a: seq<string>, b: seq<string>)
    ensures Pick(f, a + b) == Pick(f, a) + Pick(f, b)
  {
    if a != [] {
      assert (a + b)[1..] == a[1..] + b;
      assert (a + b)[0] == a[0];
      PickAppend(f, a[1..], b);
    } else {
      assert a + b == b;
    }
  }

  lemma PickOne<T>(f: string -> Option<T>, x: string)
    ensures Pick(f, [x]) == Emitted(f(x))
  {
    assert [x][1..] == [];
  }

  lemma PickTwo<T>(f: string -> Option<T>, w: string, x: string)
    ensures Pick(f, [w, x]) == Emitted(f(w)) + Emitted(f(x))
  {
    assert [w, x] == [w] + [x];
    PickAppend(f, [w], [x]);
    PickOne(f, w);
    PickOne(f, x);
  }

  lemma PickFour<T>(f: string -> Option<T>, w: string, x: string, y: string, z: string)
    ensures Pick(f, [w, x, y, z]) == Emitted(f(w)) + Emitted(f(x)) + Emitted(f(y)) + Emitted(f(z))
  {
    assert [w, x, y, z] == [w, x] + [y, z];
    PickAppend(f, [w, x], [y, z]);
    PickTwo(f, w, x);
    PickTwo(f, y, z);
  }

  lemma PickSnoc<T>(f: string -> Option<T>, lines: seq<string>, lo: nat, hi: nat)
    requires lo < hi <= |lines|
    ensures Pick(f, lines[lo..hi]) == Pick(f, lines[lo..hi - 1]) + Emitted(f(lines[hi - 1]))
  {
    assert lines[lo..hi] == lines[lo..hi - 1] + [lines[hi - 1]];
    PickAppend(f, lines[lo..hi - 1], [lines[hi - 1]]);
    PickOne(f, lines[hi - 1]);
  }

  /** Dropping lines `f` gives nothing for changes nothing. */
  lemma {:induction false} PickNonBlank<T>(f: string -> Option<T>, lines: seq<string>)
    requires forall i :: 0 <= i < |lines| && IsBlank(lines[i]) ==> f(lines[i]).None?
    ensures Pick(f, NonBlank(lines)) == Pick(f, lines)
  {
    if lines != [] {
      assert forall i :: 0 <= i < |lines| - 1 ==> lines[1..][i] == lines[i + 1];
      PickNonBlank(f, lines[1..]);
      var rest := NonBlank(lines[1..]);
      assert ([lines[0]] + rest)[0] == lines[0];
      assert ([lines[0]] + rest)[1..] == rest;
    }
  }

  /** A blank line is no heading. */
  lemma BlankNoHeading(line: string)
    requires IsBlank(line)
    ensures HeadingOf(line) == None
  {
    BlankIffTrimsEmpty(line);
    assert HeadingLevel([]) == 0;
  }

  lemma HeadingsAppend(a: seq<Section>, b: seq<Section>)
    ensures Headings(a + b) == Headings(a) + Headings(b)
  {
  }

  /**
   * After a first `# ` line, and with no other `# ` line, the sections of a
   * parse are the headings of the remaining lines read one by one.
   */
  lemma {:induction false} ParseHeadings(lines: seq<string>, n: nat)
    requires 1 <= n <= |lines|
    requires StartsWith(Trim(lines[0]), TitleMarker)
    requires NoTitleLine(lines[1..])
    ensures Headings(Collect(MdSteps(lines)[..n])) == Pick(HeadingOf, lines[1..n])
  {
    if n == 1 {
      ParseFirstLine(lines);
      assert lines[1..1] == [];
    } else {
      var i := n - 1;
      ParseHeadings(lines, i);
      assert lines[i] == lines[1..][i - 1];
      ParseStep(lines, n);
      PickSnoc(HeadingOf, lines, 1, n);
    }
  }

  /** A line that is not a `# ` line adds the section of its heading. */
  lemma ParseStep(lines: seq<string>, n: nat)
    requires 1 <= n <= |lines| && !StartsWith(Trim(lines[n - 1]), TitleMarker)
    ensures Headings(Collect(MdSteps(lines)[..n])) == Headings(Collect(MdSteps(lines)[..n - 1])) + Emitted(HeadingOf(lines[n - 1]))
  {
    var i := n - 1;
    MdStepsPrefix(lines, i);
    var e := MdEmit(FirstTitle(lines[..i]), Trim(lines[i]), i);
    EmitUntitled(FirstTitle(lines[..i]), lines[i], i);
    HeadingsAppend(Collect(MdSteps(lines)[..i]), Emitted(e));
  }

  /** The first line, a `# ` line, is read as the title and gives no section. */
  lemma ParseFirstLine(lines: seq<string>)
    requires 1 <= |lines| && StartsWith(Trim(lines[0]), TitleMarker)
    ensures Collect(MdSteps(lines)[..1]) == []
  {
    var steps := MdSteps(lines);
    assert lines[..0] == [];
    assert steps[..1] == [steps[0]] && steps[0] == None;
    assert [steps[0]][..0] == [];
  }

  /** A line that is not a `# ` line gives the section of its heading, whatever the title. */
  lemma EmitUntitled(title: string, line: string, index: nat)
    requires !StartsWith(Trim(line), TitleMarker)
    ensures Headings(Emitted(MdEmit(title, Trim(line), index))) == Emitted(HeadingOf(line))
  {
  }

  // ---------------------------------------------------------------------------
  // The level shift

  /**
   * The headings a re-parse of the export recovers: each section one level
   * deeper, with the `H<n>:` token of that deeper level removed from its title;
   * sections of level 5 or deeper are written with six or more `#` and vanish.
   */
  function ShiftedHeadings(sections: seq<Section>): seq<(int, string)> {
    if sections == [] then []
    else
      var s := sections[|sections| - 1];
      ShiftedHeadings(sections[..|sections| - 1]) + ShiftedHeading(s)
  }

  function ShiftedHeading(s: Section): (r: seq<(int, string)>)
    ensures |r| <= 1
  {
    if 0 <= s.level <= 4 then [(s.level + 1, StripHToken(s.title, s.level + 1))] else []
  }

  /** Read as a trimmed line, a heading line gives its depth and its title without that depth's token, if the depth is at most five. */
  lemma HeadingOfHeading(s: Section)
    requires s.level >= 1 && CleanLine(s.title)
    ensures Emitted(HeadingOf(SectionHeading(s))) == ShiftedHeading(s)
  {
    HeadingTrim(s);
    MdHeadingOfHeading(s);
  }

  lemma SectionLinesHeadings(s: Section)
    requires SectionReady(s)
    ensures Pick(HeadingOf, SectionLines(s)) == ShiftedHeading(s)
  {
    var h := SectionHeading(s);
    HeadingOfHeading(s);
    BlankNoHeading("");
    if HasBrief(s) {
      var b := s.brief.value;
      PickFour(HeadingOf, h, "", b, "");
    } else {
      PickTwo(HeadingOf, h, "");
    }
  }

  lemma {:induction false} SectionsLinesHeadings(sections: seq<Section>)
    requires SectionsReady(sections)
    ensures LevelsExportable(sections) && Pick(HeadingOf, SectionsLines(sections)) == ShiftedHeadings(sections)
  {
    SectionsReadyPrefix(sections, |sections|);
    assert sections[..|sections|] == sections;
    if sections != [] {
      var last := |sections| - 1;
      SectionsReadyPrefix(sections, last);
      SectionsLinesHeadings(sections[..last]);
      SectionLinesHeadings(sections[last]);
      PickAppend(HeadingOf, SectionsLines(sections[..last]), SectionLines(sections[last]));
    }
  }

  // ---------------------------------------------------------------------------
  // Export, then parse

  /** The non-blank lines of the export: the `# ` title line, then the non-blank section lines. */
  lemma ExportedLines(o: Outline)
    requires ReparseReady(o)
    ensures Exportable(o)
    ensures NonBlankLines(ExportText(o)) == [TitleMarker + o.title] + NonBlank(SectionsLines(o.sections))
  {
    ExportSplits(o);
    ExportLinesNonBlank(o);
  }

  /** The export splits back into its lines and one empty piece after the last newline. */
  lemma ExportSplits(o: Outline)
    requires ReparseReady(o)
    ensures Exportable(o)
    ensures SplitLines(ExportText(o)) == ExportLines(o) + [""]
  {
    SectionsLinesNewlineFree(o.sections);
    ExportLinesText(o);
    FirstLineFree(o.title);
    NewlineFreeAppend([TitleMarker + o.title, ""], SectionsLines(o.sections));
    SplitTerminated(ExportLines(o));
  }

  lemma ExportLinesNonBlank(o: Outline)
    requires ReparseReady(o)
    ensures Exportable(o)
    ensures NonBlank(ExportLines(o) + [""]) == [TitleMarker + o.title] + NonBlank(SectionsLines(o.sections))
  {
    SectionsLinesNewlineFree(o.sections);
    var lines, rest := ExportLines(o), SectionsLines(o.sections);
    NonBlankAppend(lines, [""]);
    assert NonBlank([""]) == [] by {
      assert IsBlank("");
    }
    FirstLineNonBlank(o.title);
    PairCons(TitleMarker + o.title, "", rest);
    ConsSlices(TitleMarker + o.title, [""] + rest);
    ConsSlices("", rest);
  }

  lemma FirstLineFree(title: string)
    requires CleanLine(title)
    ensures NewlineFree([TitleMarker + title, ""])
  {
    var first := TitleMarker + title;
    assert forall i :: 0 <= i < |first| ==> first[i] != '\n' by {
      assert forall i :: 2 <= i < |first| ==> first[i] == title[i - 2];
    }
  }

  /** The title line is its own trim and offers the title without a leading `H1:` token. */
  lemma FirstLineTrim(title: string)
    requires CleanLine(title)
    ensures Trim(TitleMarker + title) == TitleMarker + title
  {
    var first := TitleMarker + title;
    assert first[0] == '#' && first[|first| - 1] == title[|title| - 1];
    TrimOfTrimmed(first);
  }

  lemma FirstLineTitle(title: string)
    ensures StartsWith(TitleMarker + title, TitleMarker)
    ensures TitleValue(TitleMarker + title) == StripHToken(title, 1)
  {
    ReplaceFirstLeading(TitleMarker, title, "");
    assert "" + title == title;
    FirstLineStarts(title);
  }

  lemma FirstLineStarts(title: string)
    ensures StartsWith(TitleMarker + title, TitleMarker)
  {
    assert (TitleMarker + title)[..|TitleMarker|] == TitleMarker;
  }

  lemma FirstLineNonBlank(title: string)
    requires CleanLine(title)
    ensures !IsBlank(TitleMarker + title)
  {
    FirstLineTrim(title);
  }

  /** The title a parse finds when the first non-blank line is the only `# ` line. */
  lemma ParseTitle(content: string, title: string, kept: seq<string>)
    requires CleanLine(title) && NoTitleLine(kept)
    requires NonBlankLines(content) == [TitleMarker + title] + kept
    ensures var t := StripHToken(title, 1);
      MarkdownOutline(content).title == if t == [] then Untitled else t
  {
    TitleOfLines(title, kept);
  }

  lemma TitleOfLines(title: string, kept: seq<string>)
    requires CleanLine(title) && NoTitleLine(kept)
    ensures FirstTitle([TitleMarker + title] + kept) == StripHToken(title, 1)
  {
    TitleLineFirst(title, kept, StripHToken(title, 1));
    FirstTitleNone(kept);
  }

  /** A clean `# ` line in front offers its title, if that is non-empty. */
  lemma TitleLineFirst(title: string, rest: seq<string>, t: string)
    requires CleanLine(title) && t == StripHToken(title, 1)
    ensures FirstTitle([TitleMarker + title] + rest) == if t != [] then t else FirstTitle(rest)
  {
    FirstLineTrim(title);
    FirstLineTitle(title);
    TitleLineCons(TitleMarker + title, rest, t);
  }

  lemma TitleLineCons(line: string, rest: seq<string>, value: string)
    requires Trim(line) == line && StartsWith(line, TitleMarker) && TitleValue(line) == value
    ensures FirstTitle([line] + rest) == if value != [] then value else FirstTitle(rest)
  {
    FirstTitleCons(line, rest);
  }

  lemma FirstTitleCons(line: string, rest: seq<string>)
    ensures var t := Trim(line);
      FirstTitle([line] + rest) == if StartsWith(t, TitleMarker) && TitleValue(t) != [] then TitleValue(t) else FirstTitle(rest)
  {
    var all := [line] + rest;
    assert all[0] == line;
    assert all[1..] == rest;
  }

  /** The sections a parse finds after that line: the headings of the lines that follow. */
  lemma ParseSections(content: string, title: string, kept: seq<string>)
    requires CleanLine(title) && NoTitleLine(kept)
    requires NonBlankLines(content) == [TitleMarker + title] + kept
    ensures Headings(MarkdownOutline(content).sections) == Pick(HeadingOf, kept)
  {
    FirstLineStartsTrimmed(title);
    SectionsOfLines(TitleMarker + title, kept);
  }

  lemma SectionsOfLines(first: string, kept: seq<string>)
    requires StartsWith(Trim(first), TitleMarker) && NoTitleLine(kept)
    ensures Headings(Collect(MdSteps([first] + kept))) == Pick(HeadingOf, kept)
  {
    var all := [first] + kept;
    ConsSlices(first, kept);
    ParseHeadings(all, |all|);
    WholeSlice(MdSteps(all));
  }

  /** The title line is a `# ` line once trimmed. */
  lemma FirstLineStartsTrimmed(title: string)
    requires CleanLine(title)
    ensures StartsWith(Trim(TitleMarker + title), TitleMarker)
  {
    FirstLineTrim(title);
    FirstLineStarts(title);
  }

  /** The section lines give the shifted headings, blank ones included or not. */
  lemma KeptHeadings(o: Outline)
    requires ReparseReady(o)
    ensures Exportable(o)
    ensures Pick(HeadingOf, NonBlank(SectionsLines(o.sections))) == ShiftedHeadings(o.sections)
  {
    SectionsLinesHeadings(o.sections);
    var rest := SectionsLines(o.sections);
    forall i | 0 <= i < |rest| && IsBlank(rest[i])
      ensures HeadingOf(rest[i]).None?
    {
      BlankNoHeading(rest[i]);
    }
    PickNonBlank(HeadingOf, rest);
  }

  /**
   * Exporting an outline and parsing the markdown back gives the exported
   * title (less a leading `H1:` token, `Untitled` if nothing is left) and the
   * level-shifted headings; so the round trip does not hold.
   */
  lemma ExportThenParse(o: Outline)
    requires ReparseReady(o)
    ensures Exportable(o)
    ensures var parsed, title := MarkdownOutline(ExportText(o)), StripHToken(o.title, 1);
      && parsed.title == (if title == [] then Untitled else title)
      && Headings(parsed.sections) == ShiftedHeadings(o.sections)
  {
    ExportedLines(o);
    var rest := SectionsLines(o.sections);
    SectionsLinesNoTitle(o.sections);
    NonBlankNoTitle(rest);
    ParseTitle(ExportText(o), o.title, NonBlank(rest));
    ParseSections(ExportText(o), o.title, NonBlank(rest));
    KeptHeadings(o);
  }
}
