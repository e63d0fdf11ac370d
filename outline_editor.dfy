/**
 * The outline editor page (src/pages/OutlineEditor.tsx) without its
 * rendering: a linear history of outline snapshots with a cursor, undo, redo
 * and reset; section and title edits that commit a new snapshot; the markdown
 * text the copy and download buttons export; and the download's file name.
 */
module OutlineEditor {
  import opened Wrappers
  import opened Text
  import opened OutlineModel

  // ---------------------------------------------------------------------------
  // Edits as values

  /** The two field names the page passes to `updateSection`: `'title'` and `'brief'`. */
  datatype Field = TitleField | BriefField

  /** `{ ...section, [field]: value }`. */
  function SetField(s: Section, field: Field, value: string): (r: Section)
    ensures r.id == s.id && r.level == s.level
    ensures field == TitleField ==> r.title == value && r.brief == s.brief
    ensures field == BriefField ==> r.brief == Some(value) && r.title == s.title
  {
    match field
    case TitleField => s.(title := value)
    case BriefField => s.(brief := Some(value))
  }

  /**
   * The `map` in `updateSection`: every section whose id is `id` gets the new
   * field value; count, order, ids, levels and every other section are kept.
   */
  function UpdateSections(sections: seq<Section>, id: string, field: Field, value: string): (r: seq<Section>)
    ensures |r| == |sections|
    ensures forall i :: 0 <= i < |r| ==> r[i].id == sections[i].id && r[i].level == sections[i].level
    ensures forall i :: 0 <= i < |r| && sections[i].id != id ==> r[i] == sections[i]
    ensures forall i :: 0 <= i < |r| && sections[i].id == id ==> r[i] == SetField(sections[i], field, value)
  {
    seq(|sections|, i requires 0 <= i < |sections| => if sections[i].id == id then SetField(sections[i], field, value) else sections[i])
  }

  /** Writing the same value twice is writing it once. */
  lemma UpdateSectionsIdempotent(sections: seq<Section>, id: string, field: Field, value: string)
    ensures var once := UpdateSections(sections, id, field, value);
      UpdateSections(once, id, field, value) == once
  {
  }

  /** An id no section has changes nothing (the page still commits the unchanged outline). */
  lemma UpdateSectionsMissingId(sections: seq<Section>, id: string, field: Field, value: string)
    requires forall s :: s in sections ==> s.id != id
    ensures UpdateSections(sections, id, field, value) == sections
  {
    var r := UpdateSections(sections, id, field, value);
    forall i | 0 <= i < |r|
      ensures r[i] == sections[i]
    {
      assert sections[i] in sections;
    }
  }

  // ---------------------------------------------------------------------------
  // The markdown export

  /** `if (section.brief)`: an absent brief and an empty one are both false. */
  predicate HasBrief(s: Section) {
    s.brief.Some? && s.brief.value != []
  }

  /** `'#'.repeat(level + 1)` is defined (it throws a `RangeError` for a negative count). */
  predicate Exportable(o: Outline) {
    LevelsExportable(o.sections)
  }

  predicate LevelsExportable(sections: seq<Section>) {
    forall i :: 0 <= i < |sections| ==> sections[i].level >= -1
  }

  /** A section's heading line, one level deeper than the section. */
  function SectionHeading(s: Section): string
    requires s.level >= -1
  {
    Repeat('#', s.level + 1) + " " + s.title
  }

  /** What one section adds to the export: its heading line, then its brief or a blank line. */
  function SectionText(s: Section): string
    requires s.level >= -1
  {
    SectionHeading(s) + "\n" + if HasBrief(s) then "\n" + s.brief.value + "\n\n" else "\n"
  }

  function SectionsText(sections: seq<Section>): string
    requires LevelsExportable(sections)
  {
    if sections == [] then []
    else SectionsText(sections[..|sections| - 1]) + SectionText(sections[|sections| - 1])
  }

  /** The text `copyToClipboard` and `downloadMarkdown` build. */
  function ExportText(o: Outline): string
    requires Exportable(o)
  {
    "# " + o.title + "\n\n" + SectionsText(o.sections)
  }

  /** The export of a concatenation is the concatenation of the exports. */
  lemma {:induction false} SectionsTextAppend(a: seq<Section>, b: seq<Section>)
    requires LevelsExportable(a) && LevelsExportable(b)
    ensures LevelsExportable(a + b) && SectionsText(a + b) == SectionsText(a) + SectionsText(b)
    decreases |b|
  {
    if b != [] {
      var last := |b| - 1;
      var ab := a + b;
      assert ab[..|ab| - 1] == a + b[..last];
      assert ab[|ab| - 1] == b[last];
      assert LevelsExportable(b[..last]) by {
        assert forall i :: 0 <= i < last ==> b[..last][i] == b[i];
      }
      SectionsTextAppend(a, b[..last]);
      calc {
        SectionsText(ab);
        SectionsText(a + b[..last]) + SectionText(b[last]);
        SectionsText(a) + SectionsText(b[..last]) + SectionText(b[last]);
        SectionsText(a) + SectionsText(b);
      }
    } else {
      assert a + b == a;
    }
  }

  /** The building loop's text: the header once, then each section in turn. */
  method BuildMarkdown(o: Outline) returns (markdown: string)
    requires Exportable(o)
    ensures markdown == ExportText(o)
  {
    markdown := "# " + o.title + "\n\n";
    for i := 0 to |o.sections|
      invariant markdown == "# " + o.title + "\n\n" + SectionsText(o.sections[..i])
    {
      SectionsTextPrefix(o.sections, i);
      markdown := AppendSection(markdown, o.sections[i]);
    }
    WholeSlice(o.sections);
  }

  /** One turn of the building loop: the section's heading line, then its brief or a blank line. */
  method AppendSection(markdown: string, section: Section) returns (r: string)
    requires section.level >= -1
    ensures r == markdown + SectionText(section)
  {
    var prefix := Repeat('#', section.level + 1);
    r := markdown + prefix + " " + section.title + "\n";
    if HasBrief(section) {
      r := r + "\n" + section.brief.value + "\n\n";
    } else {
      r := r + "\n";
    }
  }

  /** The export of one more section of a list extends the export of the shorter prefix. */
  lemma SectionsTextPrefix(sections: seq<Section>, i: nat)
    requires LevelsExportable(sections) && i < |sections|
    ensures LevelsExportable(sections[..i]) && LevelsExportable(sections[..i + 1])
    ensures SectionsText(sections[..i + 1]) == SectionsText(sections[..i]) + SectionText(sections[i])
  {
    assert sections[..i + 1][..i] == sections[..i];
  }

  /** `Demo` with a level-1 and a level-2 section exports with two and three hashes; an empty brief is not written. */
  lemma ExportExample()
    ensures ExportText(Outline("Demo", [Section("a", 1, "Part One", None), Section("b", 2, "Sub A", Some(""))]))
      == "# Demo\n\n" + "## Part One\n\n" + "### Sub A\n\n"
  {
    var s1, s2 := Section("a", 1, "Part One", None), Section("b", 2, "Sub A", Some(""));
    SectionTextExample();
    assert [s1, s2][..1] == [s1];
    assert [s1][..0] == [];
    assert SectionsText([s1]) == SectionsText([]) + SectionText(s1);
    assert SectionsText([s1, s2]) == SectionsText([s1]) + SectionText(s2);
    assert "# " + "Demo" + "\n\n" == "# Demo\n\n";
  }

  lemma SectionTextExample()
    ensures SectionText(Section("a", 1, "Part One", None)) == "## Part One\n\n"
    ensures SectionText(Section("b", 2, "Sub A", Some(""))) == "### Sub A\n\n"
  {
    assert Repeat('#', 2) == "##";
    assert Repeat('#', 3) == "###";
  }

  /** A non-empty brief follows the heading after a blank line, and is followed by one. */
  lemma BriefTextExample()
    ensures SectionText(Section("c", 1, "Why", Some("Because"))) == "## Why\n\nBecause\n\n"
  {
    assert Repeat('#', 2) == "##";
  }

  // ---------------------------------------------------------------------------
  // The download's file name

  /** `title.replace(/\s+/g, '-').toLowerCase()`. */
  function FileStem(title: string): string {
    Lower(HyphenateSpaces(title))
  }

  /** The download's name: a whitespace-free, lower-case stem, then `.md`. */
  function FileName(title: string): (name: string)
    ensures |name| >= 3 && name[|name| - 3..] == ".md"
    ensures |name| <= |title| + 3
    ensures forall i :: 0 <= i < |name| - 3 ==> !IsSpace(name[i]) && !IsUpper(name[i])
  {
    FileStemShape(title);
    var stem := FileStem(title);
    assert forall i :: 0 <= i < |stem| ==> (stem + ".md")[i] == stem[i];
    stem + ".md"
  }

  /**
   * Two words with a run of whitespace between them name the file of the two
   * words lowered and joined by a single hyphen.
   */
  lemma FileNameOfTwoWords(a: string, g: string, b: string)
    requires forall i :: 0 <= i < |a| ==> !IsSpace(a[i])
    requires g != [] && AllSpace(g)
    requires b != [] && forall i :: 0 <= i < |b| ==> !IsSpace(b[i])
    ensures FileName(a + g + b) == Lower(a) + "-" + Lower(b) + ".md"
  {
    assert a + g + b == a + (g + b);
    HyphenateWord(a, g + b);
    HyphenateRun(g, b);
    HyphenateNoSpaces(b);
    LowerAppend(a, "-");
    LowerAppend(a + "-", b);
  }

  /** The stem has no whitespace and no capital letters, and is never longer than the title. */
  lemma FileStemShape(title: string)
    ensures var stem := FileStem(title);
      && |stem| <= |title|
      && (forall i :: 0 <= i < |stem| ==> !IsSpace(stem[i]) && !IsUpper(stem[i]))
  {
    var h := HyphenateSpaces(title);
    assert forall i :: 0 <= i < |h| ==> !IsSpace(h[i]);
  }

  /** A title that is already a stem names the same file. */
  lemma {:induction false} FileStemIdempotent(title: string)
    ensures FileStem(FileStem(title)) == FileStem(title)
  {
    var stem := FileStem(title);
    FileStemShape(title);
    HyphenateNoSpaces(stem);
    assert Lower(stem) == stem;
  }

  // ---------------------------------------------------------------------------
  // The page state

  class Editor {
    /** `outline`, `null` until the navigation state has been read. */
    var outline: Option<Outline>
    var history: seq<Outline>
    /** `currentHistoryIndex`. */
    var cursor: int

    /**
     * Either nothing is loaded yet (`[]`, `-1`, `null`), or the cursor is a
     * position of the history and the shown outline is the snapshot there.
     */
    ghost predicate Valid()
      reads this
    {
      || (history == [] && cursor == -1 && outline == None)
      || (0 <= cursor < |history| && outline == Some(history[cursor]))
    }

    /** The initial `useState` values. */
    constructor ()
      ensures Valid()
      ensures history == [] && cursor == -1 && outline == None
    {
      outline := None;
      history := [];
      cursor := -1;
    }

    /**
     * The mount effect: an outline in the navigation state becomes the only
     * snapshot; without one the page navigates away and its state is kept.
     */
    method Load(initial: Option<Outline>)
      modifies this
      requires Valid()
      ensures Valid()
      ensures initial.Some? ==> outline == initial && history == [initial.value] && cursor == 0
      ensures initial.None? ==> outline == old(outline) && history == old(history) && cursor == old(cursor)
    {
      if initial.Some? {
        outline := initial;
        history := [initial.value];
        cursor := 0;
      }
    }

    /**
     * `addToHistory`: the snapshots up to the cursor are kept, the new one is
     * appended and the cursor moves onto it; the redo suffix is gone.
     */
    method AddToHistory(entry: Outline)
      modifies this
      requires -1 <= cursor < |history|
      ensures history == old(history[..cursor + 1]) + [entry]
      ensures cursor == old(cursor) + 1 == |history| - 1
      ensures outline == old(outline)
    {
      history := history[..cursor + 1] + [entry];
      cursor := |history| - 1;
    }

    /** The Undo button's `disabled` condition. */
    predicate UndoDisabled()
      reads this
    {
      cursor <= 0
    }

    /** The Redo button's `disabled` condition. */
    predicate RedoDisabled()
      reads this
    {
      cursor >= |history| - 1
    }

    /** `undo`: one snapshot back, exactly when the Undo button is enabled; the history is never changed. */
    method Undo()
      modifies this
      requires Valid()
      ensures Valid()
      ensures history == old(history)
      ensures old(UndoDisabled()) ==> cursor == old(cursor) && outline == old(outline)
      ensures !old(UndoDisabled()) ==> cursor == old(cursor) - 1 && outline == Some(history[cursor])
    {
      if cursor > 0 {
        cursor := cursor - 1;
        outline := Some(history[cursor]);
      }
    }

    /** `redo`: one snapshot forward, exactly when the Redo button is enabled; the history is never changed. */
    method Redo()
      modifies this
      requires Valid()
      ensures Valid()
      ensures history == old(history)
      ensures old(RedoDisabled()) ==> cursor == old(cursor) && outline == old(outline)
      ensures !old(RedoDisabled()) ==> cursor == old(cursor) + 1 && outline == Some(history[cursor])
    {
      if cursor < |history| - 1 {
        cursor := cursor + 1;
        outline := Some(history[cursor]);
      }
    }

    /** `resetOutline`: back to the first snapshot without dropping any; nothing happens before a load. */
    method ResetOutline()
      modifies this
      requires Valid()
      ensures Valid()
      ensures history == old(history)
      ensures old(history) != [] ==> cursor == 0 && outline == Some(history[0])
      ensures old(history) == [] ==> cursor == old(cursor) && outline == old(outline)
    {
      if |history| > 0 {
        outline := Some(history[0]);
        cursor := 0;
      }
    }

    /**
     * `updateSection(id, field, value)`: the shown outline gets the edited
     * sections and the same title, and is committed as a new snapshot.
     */
    method UpdateSection(id: string, field: Field, value: string)
      modifies this
      requires Valid()
      ensures Valid()
      ensures old(outline).None? ==> outline == old(outline) && history == old(history) && cursor == old(cursor)
      ensures old(outline).Some? ==>
        var o := old(outline).value;
        && outline == Some(Outline(o.title, UpdateSections(o.sections, id, field, value)))
        && history == old(history[..cursor + 1]) + [outline.value]
        && cursor == old(cursor) + 1
    {
      if outline.None? {
        return;
      }
      var updated := outline.value.(sections := UpdateSections(outline.value.sections, id, field, value));
      outline := Some(updated);
      AddToHistory(updated);
    }

    /** `updateTitle(newTitle)`: only the title changes, and the result is committed. */
    method UpdateTitle(newTitle: string)
      modifies this
      requires Valid()
      ensures Valid()
      ensures old(outline).None? ==> outline == old(outline) && history == old(history) && cursor == old(cursor)
      ensures old(outline).Some? ==>
        && outline == Some(Outline(newTitle, old(outline).value.sections))
        && history == old(history[..cursor + 1]) + [outline.value]
        && cursor == old(cursor) + 1
    {
      if outline.None? {
        return;
      }
      var updated := outline.value.(title := newTitle);
      outline := Some(updated);
      AddToHistory(updated);
    }

    /** `copyToClipboard`: the text written to the clipboard, if an outline is shown. */
    method CopyToClipboard() returns (text: Option<string>)
      requires outline.Some? ==> Exportable(outline.value)
      ensures outline.None? ==> text == None
      ensures outline.Some? ==> text == Some(ExportText(outline.value))
    {
      if outline.None? {
        return None;
      }
      var markdown := BuildMarkdown(outline.value);
      return Some(markdown);
    }

    /** `downloadMarkdown`: the file name and text of the download, if an outline is shown. */
    method DownloadMarkdown() returns (file: Option<(string, string)>)
      requires outline.Some? ==> Exportable(outline.value)
      ensures outline.None? ==> file == None
      ensures outline.Some? ==> file == Some((FileName(outline.value.title), ExportText(outline.value)))
    {
      if outline.None? {
        return None;
      }
      var markdown := BuildMarkdown(outline.value);
      return Some((FileName(outline.value.title), markdown));
    }
  }

  /**
   * Editing after an undo discards the undone snapshot: load `a`, retitle it
   * `B`, undo, retitle it `C`, and the history is `a` then `C` with the cursor
   * on `C`.
   */
  method BranchingScenario(a: Outline) returns (history: seq<Outline>, cursor: int)
    ensures history == [a, a.(title := "C")] && cursor == 1
  {
    var e := new Editor();
    e.Load(Some(a));
    e.UpdateTitle("B");
    assert e.history == [a, a.(title := "B")];
    e.Undo();
    assert e.outline == Some(a);
    e.UpdateTitle("C");
    history, cursor := e.history, e.cursor;
  }

  /** A reset after two commits shows the first snapshot and keeps all three. */
  method ResetScenario(a: Outline) returns (history: seq<Outline>, cursor: int, shown: Option<Outline>)
    ensures history == [a, a.(title := "B"), a.(title := "C")] && cursor == 0 && shown == Some(a)
  {
    var e := new Editor();
    e.Load(Some(a));
    e.UpdateTitle("B");
    e.UpdateTitle("C");
    e.ResetOutline();
    history, cursor, shown := e.history, e.cursor, e.outline;
  }
}
