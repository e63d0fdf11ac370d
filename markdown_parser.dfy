/**
 * src/utils/markdownParser.ts.  `parseMarkdownContent` reads a markdown
 * outline: the first `# ` line whose text is non-empty names the document, and
 * every other line starting with one to five `#` and a space becomes a section
 * of that level, its `H<N>:` token removed when `N` is the section's level.
 * `generateMarkdownFromContent` removes those tokens from line-start headings.
 */
module MarkdownParser {
  import opened Wrappers
  import opened Text
  import opened OutlineModel

  const TitleMarker := "# "
  const Untitled := "Untitled"

  /** `'#'.repeat(n) + ' '`, the prefix of a level-`n` heading. */
  function HeadingMarker(n: nat): (m: string)
    ensures |m| == n + 1 && m[n] == ' '
    ensures forall i :: 0 <= i < n ==> m[i] == '#'
  {
    Repeat('#', n) + " "
  }

  /** The level the `startsWith` chain assigns, longest prefix first; 0 when no branch applies. */
  function HeadingLevel(t: string): (k: nat)
    ensures k <= 5
  {
    if StartsWith(t, HeadingMarker(5)) then 5
    else if StartsWith(t, HeadingMarker(4)) then 4
    else if StartsWith(t, HeadingMarker(3)) then 3
    else if StartsWith(t, HeadingMarker(2)) then 2
    else if StartsWith(t, HeadingMarker(1)) then 1
    else 0
  }

  /** `t` starts with `n` hashes and a space exactly when its leading run of `#` has length `n` and a space follows. */
  lemma MarkerIsHashRun(t: string, n: nat)
    ensures var k := LeadingRun(t, Hash);
      StartsWith(t, HeadingMarker(n)) <==> k == n && n < |t| && t[n] == ' '
  {
    if StartsWith(t, HeadingMarker(n)) {
      MarkerGivesHashRun(t, n);
    }
    if LeadingRun(t, Hash) == n && n < |t| && t[n] == ' ' {
      HashRunGivesMarker(t, n);
    }
  }

  lemma MarkerGivesHashRun(t: string, n: nat)
    requires StartsWith(t, HeadingMarker(n))
    ensures LeadingRun(t, Hash) == n && n < |t| && t[n] == ' '
  {
    var m := HeadingMarker(n);
    assert forall i :: 0 <= i <= n ==> t[i] == t[..n + 1][i] == m[i];
  }

  lemma HashRunGivesMarker(t: string, n: nat)
    requires LeadingRun(t, Hash) == n && n < |t| && t[n] == ' '
    ensures StartsWith(t, HeadingMarker(n))
  {
    assert t[..n + 1] == HeadingMarker(n);
  }

  /**
   * The level is the number of `#` before the first space, when that is one
   * to five; six or more hashes, or none, give no heading.
   */
  lemma HeadingLevelIsHashCount(t: string)
    ensures var k := LeadingRun(t, Hash);
      HeadingLevel(t) == if 1 <= k <= 5 && k < |t| && t[k] == ' ' then k else 0
  {
    MarkerIsHashRun(t, 1);
    MarkerIsHashRun(t, 2);
    MarkerIsHashRun(t, 3);
    MarkerIsHashRun(t, 4);
    MarkerIsHashRun(t, 5);
  }

  /** The markers the source spells out as literals. */
  lemma MarkerIsLiteral(n: nat)
    requires 1 <= n <= 5
    ensures n == 1 ==> HeadingMarker(n) == TitleMarker
    ensures n == 2 ==> HeadingMarker(n) == "## "
    ensures n == 3 ==> HeadingMarker(n) == "### "
    ensures n == 4 ==> HeadingMarker(n) == "#### "
    ensures n == 5 ==> HeadingMarker(n) == "##### "
  {
  }

  /** The token `H<n>:`. */
  function HToken(n: nat): (tok: string)
    requires n < 10
    ensures |tok| == 3
  {
    ['H', DigitChar(n), ':']
  }

  // `s.replace(/^H<n>:\s*/, '')`: the token and the whitespace after it go, when `s` starts with the token.
  function StripHToken(s: string, n: nat): (r: string)
    requires n < 10
  {
    if StartsWith(s, HToken(n)) then TrimStart(s[3..]) else s
  }

  /** A token of another level is not stripped. */
  lemma OtherTokenKept(s: string, m: nat, n: nat)
    requires m < 10 && n < 10 && m != n
    requires StartsWith(s, HToken(m))
    ensures StripHToken(s, n) == s
  {
    assert s[1] == DigitChar(m) != DigitChar(n) == HToken(n)[1];
  }

  /** The level and title a trimmed heading line gives, if it is a heading. */
  function MdHeading(t: string): (r: Option<(int, string)>)
    ensures r.Some? <==> HeadingLevel(t) > 0
    ensures r.Some? ==> r.value.0 == HeadingLevel(t)
  {
    var k := HeadingLevel(t);
    if k == 0 then None else Some((k, StripHToken(ReplaceFirst(t, HeadingMarker(k), ""), k)))
  }

  /** A heading's title is the line after its marker, with the token of its own level removed. */
  lemma HeadingTitle(t: string)
    requires HeadingLevel(t) > 0
    ensures var k := HeadingLevel(t);
      MdHeading(t) == Some((k, StripHToken(t[k + 1..], k)))
  {
    var k := HeadingLevel(t);
    MarkerIsLiteral(k);
    assert OccursAt(t, HeadingMarker(k), 0);
    ReplaceFirstSpec(t, HeadingMarker(k), "", 0);
    assert t[..0] + "" + t[k + 1..] == t[k + 1..];
  }

  /** `## H3: x` is a level-2 heading that keeps its `H3:` token. */
  lemma MismatchedTokenExample()
    ensures MdHeading("## H3: x") == Some((2, "H3: x"))
  {
    var t := "## H3: x";
    assert LeadingRun(t[2..], Hash) == 0;
    HeadingLevelIsHashCount(t);
    HeadingTitle(t);
    assert t[3..] == "H3: x";
    OtherTokenKept("H3: x", 3, 2);
  }

  /** `## H2: x` is a level-2 heading titled `x`. */
  lemma MatchingTokenExample()
    ensures MdHeading("## H2: x") == Some((2, "x"))
  {
    var t := "## H2: x";
    assert LeadingRun(t[2..], Hash) == 0;
    HeadingLevelIsHashCount(t);
    HeadingTitle(t);
    assert t[3..] == "H2: x";
    OwnTokenExample();
  }

  /** `H2: x` loses its token and the space after it at level 2. */
  lemma OwnTokenExample()
    ensures StripHToken("H2: x", 2) == "x"
  {
    assert "H2: x"[..3] == HToken(2);
    assert "H2: x"[3..] == " x" && " x"[1..] == "x";
    assert TrimStart(" x") == "x";
  }

  /** Six hashes are not a heading. */
  lemma SixHashesExample()
    ensures MdHeading("###### x") == None
  {
    HeadingLevelIsHashCount("###### x");
    assert LeadingRun("###### x", Hash) == 6;
  }

  // ---------------------------------------------------------------------------
  // The title and section rules of one line

  /** The line is consumed as the title: it starts with `# ` and no title is set yet. */
  predicate TakesTitle(title: string, t: string) {
    StartsWith(t, TitleMarker) && title == []
  }

  /** The title a `# ` line offers: the line without `# ` and without a leading `H1:` token. */
  function TitleValue(t: string): string {
    StripHToken(ReplaceFirst(t, TitleMarker, ""), 1)
  }

  /** The section the trimmed line `index` contributes, given the title so far. */
  function MdEmit(title: string, t: string, index: nat): (r: Option<Section>)
    ensures r.Some? ==> r.value.id == SectionId(index) && r.value.brief == None
    ensures r.Some? ==> 1 <= r.value.level <= 5
    ensures r.Some? <==> !TakesTitle(title, t) && HeadingLevel(t) > 0
  {
    if TakesTitle(title, t) then None
    else
      match MdHeading(t)
      case Some((k, h)) => Some(Section(SectionId(index), k, h, None))
      case None => None
  }

  /** The first non-empty title a `# ` line offers, read front to back: the title once `lines` are seen. */
  function FirstTitle(lines: seq<string>): string {
    if lines == [] then []
    else
      var t := Trim(lines[0]);
      if StartsWith(t, TitleMarker) && TitleValue(t) != [] then TitleValue(t) else FirstTitle(lines[1..])
  }

  /**
   * Seeing one more line changes the title only while it is unset, and then
   * only on a `# ` line; a `# ` line whose text is empty (`# H1:`) leaves it
   * unset.
   */
  lemma {:induction false} FirstTitleAppend(lines: seq<string>, line: string)
    ensures FirstTitle(lines + [line]) ==
      if FirstTitle(lines) != [] then FirstTitle(lines)
      else if StartsWith(Trim(line), TitleMarker) then TitleValue(Trim(line))
      else []
  {
    if lines != [] {
      assert (lines + [line])[1..] == lines[1..] + [line];
      FirstTitleAppend(lines[1..], line);
    }
  }

  /** The title after line `i`, in terms of the title before it. */
  lemma FirstTitlePrefix(lines: seq<string>, i: nat)
    requires i < |lines|
    ensures FirstTitle(lines[..i + 1]) ==
      if TakesTitle(FirstTitle(lines[..i]), Trim(lines[i])) then TitleValue(Trim(lines[i])) else FirstTitle(lines[..i])
  {
    assert lines[..i + 1] == lines[..i] + [lines[i]];
    FirstTitleAppend(lines[..i], lines[i]);
  }

  /** What each line contributes, given the title the lines before it left. */
  function MdSteps(lines: seq<string>): (steps: seq<Option<Section>>)
    ensures |steps| == |lines|
  {
    seq(|lines|, i requires 0 <= i < |lines| => MdEmit(FirstTitle(lines[..i]), Trim(lines[i]), i))
  }

  /** The sections after line `i`, in terms of those before it. */
  lemma MdStepsPrefix(lines: seq<string>, i: nat)
    requires i < |lines|
    ensures Collect(MdSteps(lines)[..i + 1]) ==
      Collect(MdSteps(lines)[..i]) + Emitted(MdEmit(FirstTitle(lines[..i]), Trim(lines[i]), i))
  {
    var steps := MdSteps(lines);
    assert steps[..i + 1][..i] == steps[..i];
  }

  /** `parseMarkdownContent(content)`. */
  function MarkdownOutline(content: string): Outline {
    var lines := NonBlankLines(content);
    var title := FirstTitle(lines);
    Outline(if title == [] then Untitled else title, Collect(MdSteps(lines)))
  }

  // ---------------------------------------------------------------------------
  // What the parse gives

  /** Every section has a level in 1..5 and no brief, section ids are distinct, and there are no more sections than lines. */
  lemma MarkdownSectionsWellFormed(lines: seq<string>)
    ensures var ss := Collect(MdSteps(lines));
      && |ss| <= |lines|
      && (forall s :: s in ss ==> 1 <= s.level <= 5 && s.brief == None)
      && DistinctIds(ss)
  {
    var steps := MdSteps(lines);
    CollectDistinctIds(steps);
    forall s | s in Collect(steps)
      ensures 1 <= s.level <= 5 && s.brief == None
    {
      CollectMembers(steps, s);
    }
  }

  /** Sections appear in line order, each is what its own line contributes, and every contributing line gives one. */
  lemma MarkdownOrder(lines: seq<string>)
    ensures var ss, os := Collect(MdSteps(lines)), CollectOrigins(MdSteps(lines));
      && |ss| == |os| <= |lines|
      && StrictlyIncreasing(os)
      && (forall m :: 0 <= m < |os| ==> os[m] < |lines| && MdSteps(lines)[os[m]] == Some(ss[m]))
      && (forall i :: 0 <= i < |lines| && MdSteps(lines)[i].Some? ==> i in os)
  {
    CollectOrder(MdSteps(lines));
  }

  /**
   * Line `i` contributes a section exactly when it is a heading not consumed
   * as the title; the section has the heading's level, the line after its
   * marker (own-level token removed) as title, and id `section-<i>`.
   */
  lemma MarkdownSectionRule(lines: seq<string>, i: nat)
    requires i < |lines|
    ensures var t, title := Trim(lines[i]), FirstTitle(lines[..i]);
      && (MdSteps(lines)[i].Some? <==> !TakesTitle(title, t) && HeadingLevel(t) > 0)
      && (MdSteps(lines)[i].Some? ==>
            var k := HeadingLevel(t);
            MdSteps(lines)[i] == Some(Section(SectionId(i), k, StripHToken(t[k + 1..], k), None)))
  {
    var t := Trim(lines[i]);
    if HeadingLevel(t) > 0 {
      HeadingTitle(t);
    }
  }

  // ---------------------------------------------------------------------------
  // The parser

  /** The `startsWith` chain spelled with the literal prefixes assigns the same levels. */
  lemma LiteralChain(t: string)
    ensures StartsWith(t, "##### ") ==> HeadingLevel(t) == 5
    ensures !StartsWith(t, "##### ") && StartsWith(t, "#### ") ==> HeadingLevel(t) == 4
    ensures !StartsWith(t, "##### ") && !StartsWith(t, "#### ") && StartsWith(t, "### ") ==> HeadingLevel(t) == 3
    ensures !StartsWith(t, "##### ") && !StartsWith(t, "#### ") && !StartsWith(t, "### ") && StartsWith(t, "## ") ==>
      HeadingLevel(t) == 2
    ensures !StartsWith(t, "##### ") && !StartsWith(t, "#### ") && !StartsWith(t, "### ") && !StartsWith(t, "## ") ==>
      HeadingLevel(t) == if StartsWith(t, TitleMarker) then 1 else 0
  {
    MarkerIsLiteral(1);
    MarkerIsLiteral(2);
    MarkerIsLiteral(3);
    MarkerIsLiteral(4);
    MarkerIsLiteral(5);
  }

  /** In the `startsWith` chain, the branch for level `k` is the first that applies. */
  lemma HeadingBranch(title: string, t: string, index: nat, k: nat)
    requires !TakesTitle(title, t) && 1 <= k && HeadingLevel(t) == k
    ensures MdEmit(title, t, index) == Some(Section(SectionId(index), k, StripHToken(ReplaceFirst(t, HeadingMarker(k), ""), k), None))
  {
  }

  /**
   * The `forEach` callback on line `index`: it may set the title, push one
   * section, or do nothing.
   */
  method VisitLine(title: string, sections: seq<Section>, line: string, index: nat)
    returns (title': string, sections': seq<Section>)
    ensures var t := Trim(line);
      title' == if TakesTitle(title, t) then TitleValue(t) else title
    ensures sections' == sections + Emitted(MdEmit(title, Trim(line), index))
  {
    title', sections' := title, sections;
    var trimmed := Trim(line);
    LiteralChain(trimmed);
    if trimmed == [] {
      return;
    }
    if StartsWith(trimmed, TitleMarker) && title == [] {
      title' := StripHToken(ReplaceFirst(trimmed, TitleMarker, ""), 1);
      return;
    }
    if StartsWith(trimmed, "##### ") {
      MarkerIsLiteral(5);
      HeadingBranch(title, trimmed, index, 5);
      sections' := sections + [Section(SectionId(index), 5, StripHToken(ReplaceFirst(trimmed, "##### ", ""), 5), None)];
    } else if StartsWith(trimmed, "#### ") {
      MarkerIsLiteral(4);
      HeadingBranch(title, trimmed, index, 4);
      sections' := sections + [Section(SectionId(index), 4, StripHToken(ReplaceFirst(trimmed, "#### ", ""), 4), None)];
    } else if StartsWith(trimmed, "### ") {
      MarkerIsLiteral(3);
      HeadingBranch(title, trimmed, index, 3);
      sections' := sections + [Section(SectionId(index), 3, StripHToken(ReplaceFirst(trimmed, "### ", ""), 3), None)];
    } else if StartsWith(trimmed, "## ") {
      MarkerIsLiteral(2);
      HeadingBranch(title, trimmed, index, 2);
      sections' := sections + [Section(SectionId(index), 2, StripHToken(ReplaceFirst(trimmed, "## ", ""), 2), None)];
    } else if StartsWith(trimmed, TitleMarker) {
      MarkerIsLiteral(1);
      HeadingBranch(title, trimmed, index, 1);
      sections' := sections + [Section(SectionId(index), 1, StripHToken(ReplaceFirst(trimmed, TitleMarker, ""), 1), None)];
    }
  }

  /** `parseMarkdownContent(content)`. */
  method ParseMarkdownContent(content: string) returns (outline: Outline)
    ensures outline == MarkdownOutline(content)
    ensures outline.title != []
    ensures forall s :: s in outline.sections ==> 1 <= s.level <= 5
    ensures DistinctIds(outline.sections)
  {
    var lines := NonBlankLines(content);
    var sections: seq<Section> := [];
    var title := "";
    for index := 0 to |lines|
      invariant title == FirstTitle(lines[..index])
      invariant sections == Collect(MdSteps(lines)[..index])
    {
      FirstTitlePrefix(lines, index);
      MdStepsPrefix(lines, index);
      title, sections := VisitLine(title, sections, lines[index], index);
    }
    WholeSlice(lines);
    WholeSlice(MdSteps(lines));
    MarkdownSectionsWellFormed(lines);
    outline := Outline(if title == [] then Untitled else title, sections);
  }

  // ---------------------------------------------------------------------------
  // generateMarkdownFromContent

  /** The text `/^#{n} H<n>:/` matches before its `\s*`. */
  function HPattern(n: nat): (pat: string)
    requires 1 <= n <= 5
    ensures |pat| == n + 4
  {
    HeadingMarker(n) + HToken(n)
  }

  /** Position `p` is where a multiline-mode `^` matches. */
  predicate AtLineStart(s: string, p: int) {
    p == 0 || (0 < p <= |s| && IsLineTerminator(s[p - 1]))
  }

  // `/^#{n} H<n>:\s*/m` matches at position `p`.
  predicate MatchAt(s: string, n: nat, p: int)
    requires 1 <= n <= 5
  {
    0 <= p <= |s| && AtLineStart(s, p) && StartsWith(s[p..], HPattern(n))
  }

  /** Where a match at `p` ends: after the pattern and the greedy run of whitespace (newlines included). */
  function MatchEnd(s: string, n: nat, p: int): (q: nat)
    requires 1 <= n <= 5 && MatchAt(s, n, p)
    ensures p + |HPattern(n)| <= q <= |s|
    ensures AllSpace(s[p + |HPattern(n)|..q])
    ensures q < |s| ==> !IsSpace(s[q])
  {
    var a := p + |HPattern(n)|;
    var rest := TrimStart(s[a..]);
    assert s[a..][..|s[a..]| - |rest|] == s[a..|s| - |rest|];
    |s| - |rest|
  }

  /** A global `replace` from position `p` on: each match becomes `#{n} ` and scanning resumes after it. */
  function PassFrom(s: string, n: nat, p: nat): string
    requires 1 <= n <= 5 && p <= |s|
    decreases |s| - p
  {
    if p == |s| then []
    else if MatchAt(s, n, p) then HeadingMarker(n) + PassFrom(s, n, MatchEnd(s, n, p))
    else [s[p]] + PassFrom(s, n, p + 1)
  }

  // `s.replace(/^#{n} H<n>:\s*/gm, '#{n} ')`.
  function Pass(s: string, n: nat): string
    requires 1 <= n <= 5
  {
    PassFrom(s, n, 0)
  }

  /** `generateMarkdownFromContent(content)`: the five passes, level 5 first. */
  function GenerateMarkdown(content: string): string {
    PassesDown(content, 5)
  }

  /** The passes for levels `k`, `k - 1`, ..., 1, in that order. */
  function PassesDown(s: string, k: nat): string
    requires k <= 5
    decreases k
  {
    if k == 0 then s else PassesDown(Pass(s, k), k - 1)
  }

  /** Passes that each leave `s` alone leave it alone together. */
  lemma {:induction false} PassesDownFixed(s: string, k: nat)
    requires k <= 5
    requires forall m :: 1 <= m <= k ==> Pass(s, m) == s
    ensures PassesDown(s, k) == s
  {
    if k > 0 {
      assert Pass(s, k) == s;
      PassesDownFixed(s, k - 1);
      assert PassesDown(s, k) == PassesDown(Pass(s, k), k - 1);
    }
  }

  /** When only the level-`n` pass changes `line`, into `out`, and no lower pass changes `out`, the passes give `out`. */
  lemma {:induction false} PassesDownOne(line: string, out: string, n: nat, k: nat)
    requires 1 <= n <= k <= 5
    requires forall m :: n < m <= k ==> Pass(line, m) == line
    requires Pass(line, n) == out
    requires forall m :: 1 <= m < n ==> Pass(out, m) == out
    ensures PassesDown(line, k) == out
  {
    if k == n {
      PassesDownFixed(out, n - 1);
    } else {
      PassesDownOne(line, out, n, k - 1);
    }
  }

  lemma {:induction false} PassFromNoMatch(s: string, n: nat, p: nat)
    requires 1 <= n <= 5 && p <= |s|
    requires forall q :: p <= q < |s| ==> !MatchAt(s, n, q)
    ensures PassFrom(s, n, p) == s[p..]
    decreases |s| - p
  {
    if p < |s| {
      PassFromNoMatch(s, n, p + 1);
      assert s[p..] == [s[p]] + s[p + 1..];
    }
  }

  /** A pass changes nothing where the pattern never matches. */
  lemma PassUnchanged(s: string, n: nat)
    requires 1 <= n <= 5
    requires forall q :: 0 <= q < |s| ==> !MatchAt(s, n, q)
    ensures Pass(s, n) == s
  {
    PassFromNoMatch(s, n, 0);
  }

  /** Text without a line-start `#{N} H<N>:` for any N is returned unchanged. */
  lemma GenerateUnchanged(content: string)
    requires forall n, q :: 1 <= n <= 5 && 0 <= q < |content| ==> !MatchAt(content, n, q)
    ensures GenerateMarkdown(content) == content
  {
    forall m | 1 <= m <= 5
      ensures Pass(content, m) == content
    {
      PassUnchanged(content, m);
    }
    PassesDownFixed(content, 5);
  }

  predicate SingleLine(s: string) {
    forall i :: 0 <= i < |s| ==> !IsLineTerminator(s[i])
  }

  /** On one line, a pass can only match at the start, and then drops the token and the whitespace after it. */
  lemma PassLine(s: string, n: nat)
    requires 1 <= n <= 5 && SingleLine(s)
    ensures Pass(s, n) == if MatchAt(s, n, 0) then HeadingMarker(n) + TrimStart(s[|HPattern(n)|..]) else s
  {
    if s != [] {
      PassFromNoMatch(s, n, 1);
      if MatchAt(s, n, 0) {
        var q := MatchEnd(s, n, 0);
        PassFromNoMatch(s, n, q);
      } else {
        assert s == [s[0]] + s[1..];
      }
    }
  }

  /** A line opened by `n` hashes and a space is not a line-start match for any other level. */
  lemma OtherLevelNoMatch(s: string, n: nat, m: nat)
    requires 1 <= n <= 5 && 1 <= m <= 5 && m != n
    requires StartsWith(s, HeadingMarker(n))
    ensures !MatchAt(s, m, 0)
  {
    var lo := if m < n then m else n;
    assert s[lo] == s[..n + 1][lo] == HeadingMarker(n)[lo];
    assert HPattern(m)[lo] != s[lo];
    assert s[0..] == s;
  }

  /** The passes for the levels other than `n` leave a single line opened by `n` hashes and a space alone. */
  lemma OtherPassesKeep(s: string, n: nat)
    requires 1 <= n <= 5 && SingleLine(s)
    requires StartsWith(s, HeadingMarker(n))
    ensures forall m :: 1 <= m <= 5 && m != n ==> Pass(s, m) == s
  {
    forall m | 1 <= m <= 5 && m != n
      ensures Pass(s, m) == s
    {
      OtherLevelNoMatch(s, n, m);
      PassLine(s, m);
    }
  }

  /**
   * A heading line `#{N} H<N>:<rest>` loses exactly its token and the
   * whitespace after it; the passes for the other levels leave it alone.
   */
  lemma GenerateHeadingLine(n: nat, rest: string)
    requires 1 <= n <= 5
    requires SingleLine(rest)
    ensures GenerateMarkdown(HPattern(n) + rest) == HeadingMarker(n) + TrimStart(rest)
  {
    HeadingLinePasses(n, rest);
    PassesDownOne(HPattern(n) + rest, HeadingMarker(n) + TrimStart(rest), n, 5);
  }

  /** What each pass does to a heading line `#{n} H<n>:<rest>` and to what the level-`n` pass makes of it. */
  lemma HeadingLinePasses(n: nat, rest: string)
    requires 1 <= n <= 5
    requires SingleLine(rest)
    ensures var line, out := HPattern(n) + rest, HeadingMarker(n) + TrimStart(rest);
      && (forall m :: 1 <= m <= 5 && m != n ==> Pass(line, m) == line)
      && Pass(line, n) == out
      && (forall m :: 1 <= m <= 5 && m != n ==> Pass(out, m) == out)
  {
    var line := HPattern(n) + rest;
    HeadingLineShape(n, rest);
    HeadingLineShape(n, TrimStart(rest));
    OtherPassesKeep(line, n);
    PassLine(line, n);
    OtherPassesKeep(HeadingMarker(n) + TrimStart(rest), n);
  }

  /** The facts about `#{n} H<n>:<rest>` and `#{n} <rest>` the passes look at. */
  lemma HeadingLineShape(n: nat, rest: string)
    requires 1 <= n <= 5
    requires SingleLine(rest)
    ensures var line := HPattern(n) + rest;
      SingleLine(line) && StartsWith(line, HeadingMarker(n)) && MatchAt(line, n, 0) && line[|HPattern(n)|..] == rest
    ensures var out := HeadingMarker(n) + rest;
      SingleLine(out) && StartsWith(out, HeadingMarker(n))
  {
    var line := HPattern(n) + rest;
    var out := HeadingMarker(n) + rest;
    assert forall i :: |HPattern(n)| <= i < |line| ==> line[i] == rest[i - |HPattern(n)|];
    assert forall i :: n + 1 <= i < |out| ==> out[i] == rest[i - n - 1];
    assert line[..n + 1] == HeadingMarker(n);
    assert out[..n + 1] == HeadingMarker(n);
    assert line[0..][..|HPattern(n)|] == HPattern(n);
  }
}
