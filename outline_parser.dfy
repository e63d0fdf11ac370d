/**
 * `parseGeneratedContent` (src/utils/outlineParser.ts): the generation API's
 * free text becomes an outline.  Each non-blank line is trimmed and classified
 * by the first rule that applies: a Roman-numeral marker `[IVX]+.` plus one
 * whitespace character gives level 1, a capital-letter marker `[A-Z].` level 2,
 * a decimal marker `\d+.` level 3; a line matching none of them becomes a
 * level-1 section when it is longer than three characters and does not start
 * with `Keywords:`; anything else is dropped.  The outline title is the
 * caller's.
 */
module OutlineParser {
  import opened Wrappers
  import opened Text
  import opened OutlineModel

  const KeywordsPrefix := "Keywords:"

  /**
   * A marker made of a non-empty run of `p` characters, a `.` and one
   * whitespace character (`/^[..]+\.\s/`), read greedily: the position where
   * the marker ends, if `t` starts with one.
   */
  function RunMarker(t: string, cls: CharClass): (m: Option<nat>)
    ensures m.Some? ==> 3 <= m.value <= |t| && IsSpace(t[m.value - 1])
  {
    var k := LeadingRun(t, cls);
    if 1 <= k && k + 1 < |t| && t[k] == '.' && IsSpace(t[k + 1]) then Some(k + 2) else None
  }

  /** The marker `/^[A-Z]\.\s/`: one capital letter, a `.` and one whitespace character. */
  function CapitalMarker(t: string): (m: Option<nat>)
    ensures m.Some? ==> m.value == 3 <= |t| && IsSpace(t[m.value - 1])
  {
    if 3 <= |t| && IsUpper(t[0]) && t[1] == '.' && IsSpace(t[2]) then Some(3) else None
  }

  /**
   * The regular expression `/^R+\.\s/` read literally: some `j >= 1` characters
   * of class R, then `.`, then one whitespace character.  The match is then
   * `t[..j + 2]`, the part `replace` removes.
   */
  ghost predicate RegexMarkerAt(t: string, cls: CharClass, j: int) {
    1 <= j && j + 1 < |t| && (forall i :: 0 <= i < j ==> InClass(t[i], cls)) && t[j] == '.' && IsSpace(t[j + 1])
  }

  /** The greedy recogniser agrees with the regular expression, and the match it finds is the only one. */
  lemma RunMarkerIsRegex(t: string, cls: CharClass)
    requires !InClass('.', cls)
    ensures RunMarker(t, cls).Some? <==> exists j :: RegexMarkerAt(t, cls, j)
    ensures forall j :: RegexMarkerAt(t, cls, j) ==> RunMarker(t, cls) == Some(j + 2)
  {
    var k := LeadingRun(t, cls);
    forall j | RegexMarkerAt(t, cls, j)
      ensures j == k
    {
    }
    if RunMarker(t, cls).Some? {
      assert RegexMarkerAt(t, cls, k);
    }
  }

  /** A marker ends in whitespace, so on a trimmed line something follows it. */
  lemma MarkerLeavesTitle(t: string, m: nat)
    requires 1 <= m <= |t| && IsSpace(t[m - 1])
    requires !IsSpace(t[|t| - 1])
    ensures m < |t|
  {
  }

  /** The line-classifying body of the `forEach` callback: the section line `index` contributes, if any. */
  function ClassifyLine(line: string, index: nat): (r: Option<Section>)
    ensures r.Some? ==> r.value.id == SectionId(index) && r.value.brief == None
    ensures r.Some? ==> 1 <= r.value.level <= 3
    ensures r.Some? ==> r.value.title != []
  {
    var c := ClassifyTrimmed(Trim(line));
    if c.Some? then Some(Section(SectionId(index), c.value.0, c.value.1, None)) else None
  }

  /** The level and title an already trimmed line is classified as, if it is kept. */
  function ClassifyTrimmed(t: string): (r: Option<(int, string)>)
    requires t == [] || !IsSpace(t[|t| - 1])
    ensures r.Some? ==> 1 <= r.value.0 <= 3 && r.value.1 != []
  {
    match RunMarker(t, RomanLetter)
    case Some(m) => MarkerLeavesTitle(t, m); Some((1, t[m..]))
    case None =>
      match CapitalMarker(t)
      case Some(m) => MarkerLeavesTitle(t, m); Some((2, t[m..]))
      case None =>
        match RunMarker(t, Digit)
        case Some(m) => MarkerLeavesTitle(t, m); Some((3, t[m..]))
        case None =>
          if Utf16Length(t) > 3 && !StartsWith(t, KeywordsPrefix) then Some((1, t)) else None
  }

  /** What each non-blank line contributes, by its position among the non-blank lines. */
  function Classified(lines: seq<string>): (steps: seq<Option<Section>>)
    ensures |steps| == |lines|
  {
    seq(|lines|, i requires 0 <= i < |lines| => ClassifyLine(lines[i], i))
  }

  /** The sections the loop pushes for `lines`, in order. */
  function GeneratedSections(lines: seq<string>): seq<Section> {
    Collect(Classified(lines))
  }

  /**
   * Sections appear in line order, each is what its own line classifies to,
   * and exactly the lines that classify to a section contribute one.
   */
  lemma GeneratedOrder(lines: seq<string>)
    ensures var ss, os := GeneratedSections(lines), CollectOrigins(Classified(lines));
      && |ss| == |os| <= |lines|
      && StrictlyIncreasing(os)
      && (forall m :: 0 <= m < |os| ==> os[m] < |lines| && ClassifyLine(lines[os[m]], os[m]) == Some(ss[m]))
      && (forall i :: 0 <= i < |lines| && ClassifyLine(lines[i], i).Some? ==> i in os)
  {
    CollectOrder(Classified(lines));
  }

  /** Every section of a parse has level 1, 2 or 3, a non-empty title and no brief, and the ids are distinct. */
  lemma GeneratedSectionsWellFormed(lines: seq<string>)
    ensures var ss := GeneratedSections(lines);
      && |ss| <= |lines|
      && (forall s :: s in ss ==> 1 <= s.level <= 3 && s.title != [] && s.brief == None)
      && DistinctIds(ss)
  {
    var steps := Classified(lines);
    CollectDistinctIds(steps);
    forall s | s in Collect(steps)
      ensures 1 <= s.level <= 3 && s.title != [] && s.brief == None
    {
      CollectMembers(steps, s);
    }
  }

  // ---------------------------------------------------------------------------
  // The classification rules, stated against the regular expressions

  /** A Roman-numeral marker line is level 1, titled with the marker removed, whatever else it matches. */
  lemma RomanRuleTrimmed(t: string, j: int)
    requires t == [] || !IsSpace(t[|t| - 1])
    requires RegexMarkerAt(t, RomanLetter, j)
    ensures ClassifyTrimmed(t) == Some((1, t[j + 2..]))
  {
    RunMarkerIsRegex(t, RomanLetter);
  }

  lemma RomanRule(line: string, index: nat, j: int)
    requires RegexMarkerAt(Trim(line), RomanLetter, j)
    ensures ClassifyLine(line, index) == Some(Section(SectionId(index), 1, Trim(line)[j + 2..], None))
  {
    RomanRuleTrimmed(Trim(line), j);
  }

  /** Without a Roman marker, a capital-letter marker line is level 2, titled with the three-character marker removed. */
  lemma CapitalRule(line: string, index: nat)
    requires var t := Trim(line); !(exists j :: RegexMarkerAt(t, RomanLetter, j))
    requires var t := Trim(line); 3 <= |t| && IsUpper(t[0]) && t[1] == '.' && IsSpace(t[2])
    ensures ClassifyLine(line, index) == Some(Section(SectionId(index), 2, Trim(line)[3..], None))
  {
    RunMarkerIsRegex(Trim(line), RomanLetter);
  }

  /** Without a Roman or capital-letter marker, a decimal marker line is level 3, titled with the marker removed. */
  lemma DigitRule(line: string, index: nat, j: int)
    requires var t := Trim(line); !(exists j :: RegexMarkerAt(t, RomanLetter, j))
    requires var t := Trim(line); !(3 <= |t| && IsUpper(t[0]) && t[1] == '.' && IsSpace(t[2]))
    requires RegexMarkerAt(Trim(line), Digit, j)
    ensures ClassifyLine(line, index) == Some(Section(SectionId(index), 3, Trim(line)[j + 2..], None))
  {
    RunMarkerIsRegex(Trim(line), RomanLetter);
    RunMarkerIsRegex(Trim(line), Digit);
  }

  /**
   * A line with no marker becomes a level-1 section titled with the whole
   * trimmed line if and only if it is longer than three characters and does
   * not start with `Keywords:`; otherwise it is dropped.
   */
  lemma FallbackRule(line: string, index: nat)
    requires var t := Trim(line); !(exists j :: RegexMarkerAt(t, RomanLetter, j))
    requires var t := Trim(line); !(3 <= |t| && IsUpper(t[0]) && t[1] == '.' && IsSpace(t[2]))
    requires var t := Trim(line); !(exists j :: RegexMarkerAt(t, Digit, j))
    ensures var t := Trim(line);
      ClassifyLine(line, index).Some? <==> Utf16Length(t) > 3 && !StartsWith(t, KeywordsPrefix)
    ensures ClassifyLine(line, index).Some? ==>
      ClassifyLine(line, index) == Some(Section(SectionId(index), 1, Trim(line), None))
  {
    RunMarkerIsRegex(Trim(line), RomanLetter);
    RunMarkerIsRegex(Trim(line), Digit);
  }

  /** `V. x` and `X. x` are Roman numerals, not capital-letter markers: the earlier rule wins. */
  lemma RomanBeforeCapital()
    ensures ClassifyTrimmed("V. Five") == Some((1, "Five"))
    ensures ClassifyTrimmed("X. Ten") == Some((1, "Ten"))
  {
    assert RegexMarkerAt("V. Five", RomanLetter, 1);
    RomanRuleTrimmed("V. Five", 1);
    assert RegexMarkerAt("X. Ten", RomanLetter, 1);
    RomanRuleTrimmed("X. Ten", 1);
  }

  /** Any other capital letter is a level-2 marker. */
  lemma CapitalExample()
    ensures ClassifyTrimmed("B. Two") == Some((2, "Two"))
  {
    assert LeadingRun("B. Two", RomanLetter) == 0;
  }

  /** Two emoji are four UTF-16 code units, so the line is long enough to be kept as a level-1 section. */
  lemma AstralLineExample()
    ensures ClassifyTrimmed("\U{1F600}\U{1F600}") == Some((1, "\U{1F600}\U{1F600}"))
  {
    Utf16LengthExample();
  }

  // ---------------------------------------------------------------------------
  // The parser

  /** One more line adds what that line classifies to. */
  lemma ClassifiedPrefix(lines: seq<string>, i: nat)
    requires i < |lines|
    ensures Collect(Classified(lines)[..i + 1]) == Collect(Classified(lines)[..i]) + Emitted(ClassifyLine(lines[i], i))
  {
    var steps := Classified(lines);
    assert steps[..i + 1][..i] == steps[..i];
  }

  /** The `forEach` callback on line `index`: it pushes the section the line classifies to, if any. */
  method PushClassified(sections: seq<Section>, line: string, index: nat) returns (sections': seq<Section>)
    ensures sections' == sections + Emitted(ClassifyLine(line, index))
  {
    sections' := sections;
    var trimmed := Trim(line);
    var roman := RunMarker(trimmed, RomanLetter);
    var capital := CapitalMarker(trimmed);
    var digits := RunMarker(trimmed, Digit);
    if roman.Some? {
      sections' := sections + [Section(SectionId(index), 1, trimmed[roman.value..], None)];
    } else if capital.Some? {
      sections' := sections + [Section(SectionId(index), 2, trimmed[capital.value..], None)];
    } else if digits.Some? {
      sections' := sections + [Section(SectionId(index), 3, trimmed[digits.value..], None)];
    } else if Utf16Length(trimmed) > 3 && !StartsWith(trimmed, KeywordsPrefix) {
      sections' := sections + [Section(SectionId(index), 1, trimmed, None)];
    }
  }

  /** `parseGeneratedContent(content, title)`. */
  method ParseGeneratedContent(content: string, title: string) returns (outline: Outline)
    ensures outline.title == title
    ensures outline.sections == GeneratedSections(NonBlankLines(content))
    ensures |outline.sections| <= |NonBlankLines(content)|
    ensures forall s :: s in outline.sections ==> 1 <= s.level <= 3 && s.title != []
    ensures DistinctIds(outline.sections)
  {
    var lines := NonBlankLines(content);
    var sections: seq<Section> := [];
    ghost var steps := Classified(lines);
    for index := 0 to |lines|
      invariant sections == Collect(steps[..index])
    {
      ClassifiedPrefix(lines, index);
      sections := PushClassified(sections, lines[index], index);
    }
    WholeSlice(steps);
    GeneratedSectionsWellFormed(lines);
    outline := Outline(title, sections);
  }

  /** Empty or whitespace-only content gives an outline without sections. */
  lemma BlankContentHasNoSections(content: string)
    requires AllSpace(content)
    ensures GeneratedSections(NonBlankLines(content)) == []
  {
    NonBlankLinesOfSpace(content);
  }
}
