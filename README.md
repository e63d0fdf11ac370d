# outline-wiz, modelled in Dafny

outline-wiz is a blog-outline tool. A form sends a topic to a generation API.
The returned free text is parsed into an outline: a title plus a list of
sections, each with an id, level, title and optional brief. The outline can
then be edited with undo and redo, and exported as markdown.

This project models the logic of that pipeline and proves what it does:

- `OutlineParser`: `parseGeneratedContent`, which classifies the generated
  text line by line (Roman numeral, capital letter, decimal number, fallback).
- `MarkdownParser`: `parseMarkdownContent`, which reads a markdown heading
  outline, and `generateMarkdownFromContent`, which strips `H<N>:` tokens.
- `OutlineEditor`: the editor page's snapshot history (commit, undo, redo,
  reset), section and title edits, the markdown export and the download's
  file name.
- `ExportReparse`: what `parseMarkdownContent` makes of the editor's export.
  The two are not inverses. Every level moves up one, a level-5 section
  becomes a six-hash line that is dropped, and briefs are lost.
- `Autocomplete`: the keyword suggestion filter and the keyboard state
  machine of the autocomplete field.
- `Dashboard`: the generation page's decisions. These are field validation,
  the choice between the parsed outline and a one-section fallback, and the
  keyword-length threshold for suggestion look-ups.
- `Text`, `OutlineModel` and `Wrappers` hold what the others share:
  - the JavaScript string operations (`trim`, `split('\n')`, `includes`,
    `replace`, `toLowerCase`, `repeat`, `${n}`), written out over `seq<char>`
    with ASCII character classes;
  - the `Section` and `Outline` datatypes;
  - the push-or-skip fold `Collect`, which both parsers' loops follow.

The parsers' `forEach` loops, the export's `+=` loop and the page state are
modelled imperatively:
- The loops are methods, proved equal to specification functions.
- The component states are classes whose methods update their fields.

Precedence rules, edge cases and error paths are lemmas about those functions.

Three behaviours of the code are easy to overlook, and the model keeps them:
- The markdown export writes `level + 1` hashes per section, and it writes
  the brief of a section when the brief is non-empty.
- `parseGeneratedContent` has no rule for `#` headings and keeps
  `Content Brief:` lines like any other text.
- Exporting and re-parsing is not a round trip, and
  `ExportReparse.ExportThenParse` states what it does give.

String lengths are those of JavaScript: `Text.Utf16Length` counts UTF-16 code
units, so a character outside the Basic Multilingual Plane counts twice. The
three length thresholds (the fallback rule of `parseGeneratedContent`, the
suggestion filter and the keyword look-up) use it.

## Model

| member | source | states |
|---|---|---|
| `OutlineModel.SectionId` | src/utils/outlineParser.ts:16 | ids are `section-` followed by the line index in decimal |
| `OutlineModel.SectionIdInjective` | src/utils/outlineParser.ts:16 | different line indices give different ids |
| `OutlineModel.CollectOrder` | src/utils/outlineParser.ts:6-47 | the pushed sections keep the order of the lines that pushed them; each is what its line pushed, and every pushing line contributes |
| `OutlineModel.CollectDistinctIds` | src/utils/outlineParser.ts:8-47 | when line `i` can only push id `section-<i>`, the ids are pairwise distinct |
| `Text.Trim` | src/utils/outlineParser.ts:9 | `trim` leaves neither leading nor trailing whitespace, and is empty exactly for whitespace-only text |
| `Text.JoinSplit` | src/utils/outlineParser.ts:5 | joining the pieces of `split('\n')` with newlines gives back the text |
| `Text.SplitJoin` | src/utils/outlineParser.ts:5 | splitting a join of newline-free lines gives back the lines |
| `Text.NonBlankMembers` | src/utils/outlineParser.ts:5 | `filter(line => line.trim())` keeps exactly the lines that are not blank |
| `Text.NonBlankAppend` | src/utils/outlineParser.ts:5 | the filter of a concatenation is the concatenation of the filters, so the kept lines stay in order |
| `Text.BlankIffTrimsEmpty` | src/utils/outlineParser.ts:5 | the filter drops a line, `line.trim()` being empty, exactly when the line is whitespace only |
| `Text.NonBlankLinesOfSpace` | src/utils/outlineParser.ts:5 | whitespace-only content has no non-blank line |
| `Text.DecimalRoundTrip` | src/utils/outlineParser.ts:16 | reading back `${n}` gives `n` |
| `Text.ContainsIff` | src/components/AutocompleteInput.tsx:98 | `includes` holds exactly when the needle occurs at some position |
| `Text.ReplaceFirstSpec` | src/utils/markdownParser.ts:15 | a string-pattern `replace` changes exactly the leftmost occurrence |
| `Text.ReplaceFirstAbsent` | src/utils/markdownParser.ts:15 | `replace` leaves a string without an occurrence unchanged |
| `Text.LowerChar` | src/components/AutocompleteInput.tsx:96-98 | `toLowerCase` maps each ASCII capital to the small letter at the same alphabet position and keeps every other character |
| `Text.Lower` | src/components/AutocompleteInput.tsx:96-98 | `toLowerCase` keeps the length and maps each character by `LowerChar` |
| `Text.LowerAppend` | src/pages/OutlineEditor.tsx:133 | lowering a concatenation lowers each part |
| `Text.HyphenateRun` | src/pages/OutlineEditor.tsx:133 | `replace(/\s+/g, '-')` turns a whole whitespace run, up to the next non-space character or the end, into one `-` |
| `Text.HyphenateWord` | src/pages/OutlineEditor.tsx:133 | `replace(/\s+/g, '-')` copies characters other than whitespace unchanged and in order |
| `Text.Utf16LengthBmp` | src/utils/outlineParser.ts:40 | `length` of text in the Basic Multilingual Plane is its number of characters |
| `Text.Utf16LengthAstral` | src/utils/outlineParser.ts:40 | `length` counts each character outside that plane twice |
| `Text.Utf16LengthExample` | src/utils/outlineParser.ts:40 | two emoji have `length` 4 |
| `OutlineParser.RunMarkerIsRegex` | src/utils/outlineParser.ts:13-14 | the greedy marker reader agrees with the regular expression `^[..]+\.\s`, and the match is unique |
| `OutlineParser.ClassifyLine` | src/utils/outlineParser.ts:9-46 | a kept line gives id `section-<index>`, level 1 to 3, a non-empty title and no brief |
| `OutlineParser.RomanRule` | src/utils/outlineParser.ts:13-20 | a Roman-numeral marker line is level 1, titled with exactly the marker removed |
| `OutlineParser.CapitalRule` | src/utils/outlineParser.ts:22-29 | without a Roman marker, a capital-letter marker line is level 2, titled with the three-character marker removed |
| `OutlineParser.DigitRule` | src/utils/outlineParser.ts:31-38 | without the two earlier markers, a decimal marker line is level 3, titled with the marker removed |
| `OutlineParser.AstralLineExample` | src/utils/outlineParser.ts:40-46 | a line of two emoji is long enough, at four code units, to be kept as a level-1 section |
| `OutlineParser.FallbackRule` | src/utils/outlineParser.ts:40-46 | a line with no marker is kept, as a level-1 section with the whole trimmed line as title, if and only if its `length`, in UTF-16 code units, is more than 3 and it does not start with `Keywords:` |
| `OutlineParser.RomanBeforeCapital` | src/utils/outlineParser.ts:13-22 | `V. Five` and `X. Ten` are level 1, not level 2 |
| `OutlineParser.CapitalExample` | src/utils/outlineParser.ts:22-29 | `B. Two` is a level-2 section titled `Two` |
| `OutlineParser.GeneratedOrder` | src/utils/outlineParser.ts:5-47 | sections appear in line order, at most one per non-blank line, each the classification of its own line |
| `OutlineParser.GeneratedSectionsWellFormed` | src/utils/outlineParser.ts:5-47 | every section has level 1 to 3, a non-empty title and no brief; ids are distinct; there are no more sections than non-blank lines |
| `OutlineParser.PushClassified` | src/utils/outlineParser.ts:9-46 | the loop body pushes exactly the classification of its line |
| `OutlineParser.ParseGeneratedContent` | src/utils/outlineParser.ts:4-53 | the loop returns the caller's title and the specified sections, all of level 1 to 3 with distinct ids |
| `OutlineParser.BlankContentHasNoSections` | src/utils/outlineParser.ts:5-10 | empty or whitespace-only content gives no sections |
| `MarkdownParser.HeadingLevelIsHashCount` | src/utils/markdownParser.ts:20-55 | the level is the number of `#` before the first space when that is 1 to 5; six or more hashes, or none, give no heading |
| `MarkdownParser.LiteralChain` | src/utils/markdownParser.ts:20-48 | the `startsWith` chain, longest prefix first, assigns those levels |
| `MarkdownParser.MdHeading` | src/utils/markdownParser.ts:20-55 | a trimmed line is a heading exactly when it has a level, and then has that level |
| `MarkdownParser.HeadingTitle` | src/utils/markdownParser.ts:20-55 | a heading's title is the line after its marker, with only the token of its own level removed |
| `MarkdownParser.OtherTokenKept` | src/utils/markdownParser.ts:20-55 | an `H<M>:` token of another level is not removed |
| `MarkdownParser.MismatchedTokenExample` | src/utils/markdownParser.ts:41-47 | `## H3: x` is a level-2 heading titled `H3: x` |
| `MarkdownParser.MatchingTokenExample` | src/utils/markdownParser.ts:41-47 | `## H2: x` is a level-2 heading titled `x` |
| `MarkdownParser.OwnTokenExample` | src/utils/markdownParser.ts:42 | `replace(/^H2:\s*/, '')` turns `H2: x` into `x` |
| `MarkdownParser.SixHashesExample` | src/utils/markdownParser.ts:20-55 | `###### x` is not a heading |
| `MarkdownParser.MdEmit` | src/utils/markdownParser.ts:14-55 | a line gives a section exactly when it is a heading not consumed as the title; the section's id is `section-<index>`, its level is 1 to 5 and it has no brief |
| `MarkdownParser.FirstTitleAppend` | src/utils/markdownParser.ts:14-17 | one more line changes the title only while it is unset, and then only on a `# ` line; an empty value leaves it unset |
| `MarkdownParser.VisitLine` | src/utils/markdownParser.ts:10-55 | one callback run sets the title as specified and pushes exactly what the line contributes |
| `MarkdownParser.ParseMarkdownContent` | src/utils/markdownParser.ts:4-62 | the loop returns the specified outline: the first non-empty `# ` title or `Untitled`; sections of level 1 to 5 with distinct ids |
| `MarkdownParser.MarkdownSectionsWellFormed` | src/utils/markdownParser.ts:5-56 | every section has level 1 to 5 and no brief, ids are distinct, at most one section per non-blank line |
| `MarkdownParser.MarkdownOrder` | src/utils/markdownParser.ts:9-56 | sections appear in line order, each is what its own line contributes, and every contributing line gives one |
| `MarkdownParser.MarkdownSectionRule` | src/utils/markdownParser.ts:14-55 | line `i` gives a section exactly when it is a heading not taken as the title; the section has the heading's level, the stripped title and id `section-<i>` |
| `MarkdownParser.PassLine` | src/utils/markdownParser.ts:67-71 | on a single line a pass can only match at the start, and then drops the token and the whitespace after it |
| `MarkdownParser.GenerateUnchanged` | src/utils/markdownParser.ts:64-72 | text with no line-start `#{N} H<N>:` is returned unchanged |
| `MarkdownParser.GenerateHeadingLine` | src/utils/markdownParser.ts:64-72 | a heading line `#{N} H<N>:<rest>` loses exactly its token and the whitespace after it; the passes for other levels leave it alone |
| `MarkdownParser.OtherLevelNoMatch` | src/utils/markdownParser.ts:67-71 | a line opened by `N` hashes and a space is not matched by the pattern for another level |
| `MarkdownParser.MatchEnd` | src/utils/markdownParser.ts:67-71 | a match ends after the pattern and the greedy whitespace run, newlines included |
| `OutlineEditor.SetField` | src/pages/OutlineEditor.tsx:78 | the spread changes only the named field and keeps id and level |
| `OutlineEditor.UpdateSections` | src/pages/OutlineEditor.tsx:75-80 | count, order, ids and levels are kept; sections with another id are unchanged; those with the id get the field set |
| `OutlineEditor.UpdateSectionsIdempotent` | src/pages/OutlineEditor.tsx:75-80 | writing the same value twice is writing it once |
| `OutlineEditor.UpdateSectionsMissingId` | src/pages/OutlineEditor.tsx:75-80 | an id no section has changes nothing |
| `OutlineEditor.SectionsTextAppend` | src/pages/OutlineEditor.tsx:97-106 | the export of a concatenation of sections is the concatenation of the exports |
| `OutlineEditor.BuildMarkdown` | src/pages/OutlineEditor.tsx:97-106 | the `+=` loop builds exactly the specified export text |
| `OutlineEditor.ExportExample` | src/pages/OutlineEditor.tsx:97-106 | `Demo` with a level-1 and a level-2 section exports with two and three hashes, and an empty brief is not written |
| `OutlineEditor.SectionTextExample` | src/pages/OutlineEditor.tsx:99-105 | sections without a brief, or with an empty one, are a heading one level deeper and a blank line |
| `OutlineEditor.BriefTextExample` | src/pages/OutlineEditor.tsx:99-105 | a non-empty brief follows the heading after a blank line and is followed by one |
| `OutlineEditor.FileName` | src/pages/OutlineEditor.tsx:133 | the download name ends in `.md`, is at most 3 longer than the title, and has no whitespace and no capital letter before the extension |
| `OutlineEditor.FileNameOfTwoWords` | src/pages/OutlineEditor.tsx:133 | two words with a whitespace run between them name the file of the lowered words joined by one `-` |
| `OutlineEditor.FileStemShape` | src/pages/OutlineEditor.tsx:133 | the stem has no whitespace and no capital letters, and is never longer than the title |
| `OutlineEditor.FileStemIdempotent` | src/pages/OutlineEditor.tsx:133 | a stem is its own stem |
| `OutlineEditor.Editor.constructor` | src/pages/OutlineEditor.tsx:27-31 | the initial state is an empty history, cursor -1 and no outline |
| `OutlineEditor.Editor.Load` | src/pages/OutlineEditor.tsx:33-42 | an initial outline becomes the only snapshot with the cursor on it; without one the state is kept |
| `OutlineEditor.Editor.AddToHistory` | src/pages/OutlineEditor.tsx:44-49 | the snapshots up to the cursor are kept, the entry is appended, and the cursor moves onto it |
| `OutlineEditor.Editor.Undo` | src/pages/OutlineEditor.tsx:51-56 | one snapshot back exactly when the Undo button (line 164) is enabled; the history never changes |
| `OutlineEditor.Editor.Redo` | src/pages/OutlineEditor.tsx:58-63 | one snapshot forward exactly when the Redo button (line 173) is enabled; the history never changes |
| `OutlineEditor.Editor.ResetOutline` | src/pages/OutlineEditor.tsx:65-70 | back to the first snapshot without dropping any; nothing happens on an empty history |
| `OutlineEditor.Editor.UpdateSection` | src/pages/OutlineEditor.tsx:72-84 | the shown outline gets the edited sections and keeps its title, and it is committed |
| `OutlineEditor.Editor.UpdateTitle` | src/pages/OutlineEditor.tsx:86-92 | only the title changes, and the result is committed |
| `OutlineEditor.Editor.CopyToClipboard` | src/pages/OutlineEditor.tsx:94-108 | the clipboard text is the export of the shown outline |
| `OutlineEditor.Editor.DownloadMarkdown` | src/pages/OutlineEditor.tsx:115-135 | the download has the same text as the copy, under the derived file name |
| `OutlineEditor.BranchingScenario` | src/pages/OutlineEditor.tsx:44-92 | an edit after an undo discards the undone snapshot |
| `OutlineEditor.ResetScenario` | src/pages/OutlineEditor.tsx:65-92 | a reset after two commits shows the first snapshot and keeps all three |
| `ExportReparse.ExportLinesText` | src/pages/OutlineEditor.tsx:97-106 | the export is the title line, a blank line, and each section's heading line, blank line and brief lines, each newline-terminated |
| `ExportReparse.HeadingOfHeading` | src/pages/OutlineEditor.tsx:99-100 | an exported heading of a level from 1 to 4 re-parses as level + 1 with the token of that level stripped; level 5 and deeper give nothing |
| `ExportReparse.SectionsLinesHeadings` | src/pages/OutlineEditor.tsx:98-106 | the headings a re-parse finds in the section lines are the shifted headings of the sections |
| `ExportReparse.ParseHeadings` | src/utils/markdownParser.ts:9-55 | after a leading `# ` line, and with no other `# ` line, the sections found are the headings of the later lines |
| `ExportReparse.ExportedLines` | src/pages/OutlineEditor.tsx:97-106 | the non-blank lines of the export are the title line followed by the non-blank section lines |
| `ExportReparse.ExportThenParse` | src/utils/markdownParser.ts:4-62 | re-parsing the export gives the title (less a leading `H1:` token, or `Untitled` if nothing is left) and every heading one level deeper, levels beyond 4 dropped, so export and parse are not inverses |
| `Autocomplete.Matching` | src/components/AutocompleteInput.tsx:97-99 | the filter keeps exactly the keywords whose lower-case form contains the lower-cased input |
| `Autocomplete.MatchingAppend` | src/components/AutocompleteInput.tsx:97-99 | filtering keeps list order: the filter of a concatenation is the concatenation of the filters |
| `Autocomplete.GenerateSuggestions` | src/components/AutocompleteInput.tsx:93-102 | empty for input whose `length` is below 2; at most 5; a prefix of the ordered matches, all of them when fewer than 5; every suggestion a matching keyword |
| `Autocomplete.SuggestionsComplete` | src/components/AutocompleteInput.tsx:97-101 | with fewer than five suggestions, every matching keyword is suggested |
| `Autocomplete.StepDown` | src/components/AutocompleteInput.tsx:116-121 | ArrowDown moves one entry down, never past the last index, and stays put only at the last one |
| `Autocomplete.StepUp` | src/components/AutocompleteInput.tsx:122-125 | ArrowUp moves one entry up; from the first entry, or from none, it goes to -1 |
| `Autocomplete.AutocompleteInput.constructor` | src/components/AutocompleteInput.tsx:25-27 | no suggestions, list hidden, no highlight |
| `Autocomplete.AutocompleteInput.HandleInputChange` | src/components/AutocompleteInput.tsx:104-110 | the text is taken, the suggestions recomputed, the list shown if and only if non-empty, the highlight reset to -1 |
| `Autocomplete.AutocompleteInput.SelectSuggestion` | src/components/AutocompleteInput.tsx:139-143 | the entry becomes the text, the list is hidden and the highlight reset |
| `Autocomplete.AutocompleteInput.HandleKeyDown` | src/components/AutocompleteInput.tsx:112-137 | keys are ignored while the list is hidden; the arrows move the highlight; Enter on a highlight selects it and does nothing without one; Escape hides the list and clears the highlight; the highlight stays -1 or an index of the list |
| `Dashboard.EditorOutline` | src/pages/Dashboard.tsx:105-136 | the parsed outline is forwarded unchanged when it has sections, else the one-section fallback carrying the raw content; the result always has a section and the same title |
| `Dashboard.GenerationOutcome` | src/pages/Dashboard.tsx:71-154 | refused exactly when a field is empty; a failure when the call threw or the content is missing; otherwise a navigation with the form values, the topic-or-keyword title and at least one section |
| `Dashboard.ParsedOutlineForwarded` | src/pages/Dashboard.tsx:127-136 | when the parser finds sections the editor gets exactly them |
| `Dashboard.BlankContentFallsBack` | src/pages/Dashboard.tsx:105-126 | whitespace-only content leads to the fallback outline |
| `Dashboard.DashboardPage.constructor` | src/pages/Dashboard.tsx:14-21 | all fields empty, nothing loading, no suggestions shown |
| `Dashboard.DashboardPage.HandleGenerateOutline` | src/pages/Dashboard.tsx:71-154 | the outcome is the specified one, the form is untouched, and loading ends false once a request was made |
| `Dashboard.DashboardPage.HandleKeywordChange` | src/pages/Dashboard.tsx:47-69 | the keyword is set; look-ups only for a keyword whose `length` is more than 2, whose reply replaces and shows the list, or empties it on failure; a shorter keyword only hides the list |
| `Dashboard.DashboardPage.SelectSuggestion` | src/pages/Dashboard.tsx:156-159 | the suggestion becomes the keyword and the list is hidden |

## Left out

- The two API calls (src/services/api.ts is not part of this model). Their outcome is a parameter: `Reply` is an answer or the message of a thrown error.
- Toasts, `console` output, `navigate`, the clipboard write, the `Blob` and anchor download, `e.preventDefault()` and the document mousedown listener that hides the suggestion list. These are I/O. The model returns the text, the file name and the navigation state instead.
- Rendering, the `editingSection` and `previewMode` view state, and the form's plain `setOutputType`, `setAudience` and `setTone` setters. Their fields are public in the model.
- `async` timing and React's state batching: every handler runs to completion as one sequential update.
- `toLowerCase`, `trim`, `\s` and `\d` cover ASCII only. The Unicode whitespace that JavaScript's `trim` and `\s` also accept (U+00A0, U+2028, U+2029, U+FEFF and others) is not modelled.
- `copyToClipboard` and `downloadMarkdown` build the same text with two copies of one loop. The model has one loop, `BuildMarkdown`, and both methods call it.
- `updateSection` takes any field name (`[field]: value`). The model allows the two the page passes, `title` and `brief`.
- `data.topic` and `data.generated_content` are modelled as optional strings. JSON values of other types are not.
- OutlineEditor.BuildMarkdown: requires every level to be at least -1. For lower levels `'#'.repeat` throws a `RangeError`, which is modelled as a precondition, not as an error path.
- ExportReparse.ExportThenParse: stated only for outlines whose title and section titles are non-empty, newline-free and end in a non-space character, whose levels are at least 1, and whose briefs are single lines that are not headings. Other outlines re-split into different lines; the lemma says nothing about them.
- Settings, Help, Layout, TrendingTopics and BlogPostRenderer are not part of this model. They are storage, static content or presentation.
