/**
 * The suggestion drop-down of src/components/AutocompleteInput.tsx: a fixed
 * list of keyword phrases filtered by the typed text, and the keyboard state
 * machine that moves a highlighted entry through the list and copies it into
 * the field.
 */
module Autocomplete {
  import opened Text

  /** `suggestionKeywords`, in list order. */
  const Keywords: seq<string> := [
    "Introduction to",
    "Overview of",
    "Benefits of",
    "Challenges in",
    "Best practices for",
    "How to implement",
    "Step-by-step guide to",
    "Common mistakes in",
    "Future trends in",
    "Case study:",
    "Comparison between",
    "Tools and resources for",
    "Getting started with",
    "Advanced techniques in",
    "Troubleshooting",
    "Performance optimization",
    "Security considerations",
    "Cost analysis of",
    "ROI of",
    "Implementation strategy",
    "Key features of",
    "Pros and cons of",
    "Market analysis",
    "User experience",
    "Technical requirements",
    "Integration with",
    "Scalability of",
    "Maintenance of",
    "Training and support",
    "Migration to",
    "Monitoring and analytics",
    "Backup and recovery",
    "Compliance and regulations",
    "Industry standards",
    "Emerging technologies",
    "Digital transformation",
    "Cloud computing",
    "Artificial intelligence",
    "Machine learning",
    "Data analytics",
    "Cybersecurity",
    "Mobile development",
    "Web development",
    "DevOps practices",
    "Agile methodology",
    "Project management",
    "Team collaboration",
    "Remote work strategies",
    "Customer engagement",
    "Brand building",
    "Content marketing",
    "Social media strategy",
    "Email marketing",
    "SEO optimization",
    "Conversion optimization",
    "User acquisition",
    "Customer retention",
    "Market research",
    "Competitive analysis"
  ]

  /** Inputs shorter than this get no suggestions. */
  const MinInput := 2
  /** `matches.slice(0, 5)`. */
  const MaxSuggestions := 5

  /** `keyword.toLowerCase().includes(input.toLowerCase())`. */
  predicate Matches(keyword: string, input: string) {
    Contains(Lower(keyword), Lower(input))
  }

  /** `keywords.filter(...)`: the keywords that match, in list order. */
  function Matching(keywords: seq<string>, input: string): (r: seq<string>)
    ensures |r| <= |keywords|
    ensures forall k :: k in r <==> k in keywords && Matches(k, input)
  {
    if keywords == [] then []
    else (if Matches(keywords[0], input) then [keywords[0]] else []) + Matching(keywords[1..], input)
  }

  /** Filtering a concatenation filters each part, so the matches keep the list order. */
  lemma {:induction false} MatchingAppend(a: seq<string>, b: seq<string>, input: string)
    ensures Matching(a + b, input) == Matching(a, input) + Matching(b, input)
  {
    if a == [] {
      assert a + b == b;
    } else {
      assert (a + b)[0] == a[0];
      assert (a + b)[1..] == a[1..] + b;
      MatchingAppend(a[1..], b, input);
    }
  }

  /** `generateSuggestions(input)`. */
  function GenerateSuggestions(input: string): (r: seq<string>)
    ensures Utf16Length(input) < MinInput ==> r == []
    ensures |r| <= MaxSuggestions
    ensures Utf16Length(input) >= MinInput ==> r <= Matching(Keywords, input)
    ensures Utf16Length(input) >= MinInput && |r| < MaxSuggestions ==> r == Matching(Keywords, input)
    ensures forall k :: k in r ==> k in Keywords && Matches(k, input)
  {
    if Utf16Length(input) < MinInput then []
    else
      var matches := Matching(Keywords, input);
      if |matches| <= MaxSuggestions then matches else matches[..MaxSuggestions]
  }

  /** With fewer than five suggestions, every matching keyword is among them. */
  lemma SuggestionsComplete(input: string, k: string)
    requires Utf16Length(input) >= MinInput && |GenerateSuggestions(input)| < MaxSuggestions
    requires k in Keywords && Matches(k, input)
    ensures k in GenerateSuggestions(input)
  {
  }

  /** `ArrowDown`: one entry further down, but never past the last one. */
  function StepDown(selected: int, count: nat): (r: int)
    ensures r == selected || r == selected + 1
    ensures -1 <= selected < count ==> -1 <= r < count
    ensures r == selected <==> selected >= count - 1
  {
    if selected < count - 1 then selected + 1 else selected
  }

  /** `ArrowUp`: one entry further up; from the first entry, or from none, to none. */
  function StepUp(selected: int): (r: int)
    ensures -1 <= r
    ensures r < selected || selected < 0
    ensures selected > 0 ==> r == selected - 1
    ensures selected <= 0 ==> r == -1
  {
    if selected > 0 then selected - 1 else -1
  }

  /** The keys `handleKeyDown` reacts to, and all others. */
  datatype Key = ArrowDown | ArrowUp | Enter | Escape | OtherKey

  /**
   * An `AutocompleteInput` instance.  `value` is the field's text, owned by the
   * parent and written through `onChange`.
   */
  class AutocompleteInput {
    var value: string
    var suggestions: seq<string>
    var showSuggestions: bool
    /** `selectedIndex`: the highlighted entry, `-1` for none. */
    var selectedIndex: int

    /** The highlight is an entry of the list or none, and the list holds at most five keywords. */
    ghost predicate Valid()
      reads this
    {
      && -1 <= selectedIndex < |suggestions|
      && |suggestions| <= MaxSuggestions
      && (forall k :: k in suggestions ==> k in Keywords)
    }

    /** The initial `useState` values, around the parent's current `value`. */
    constructor (initial: string)
      ensures Valid()
      ensures value == initial && suggestions == [] && !showSuggestions && selectedIndex == -1
    {
      value := initial;
      suggestions := [];
      showSuggestions := false;
      selectedIndex := -1;
    }

    /** `handleInputChange`: the text is taken, the list recomputed and shown exactly when non-empty, the highlight cleared. */
    method HandleInputChange(newValue: string)
      modifies this
      requires Valid()
      ensures Valid()
      ensures value == newValue
      ensures suggestions == GenerateSuggestions(newValue)
      ensures showSuggestions <==> suggestions != []
      ensures selectedIndex == -1
    {
      value := newValue;
      var computed := GenerateSuggestions(newValue);
      suggestions := computed;
      showSuggestions := |computed| > 0;
      selectedIndex := -1;
    }

    /** `selectSuggestion`: the entry becomes the text, the list is hidden and the highlight cleared. */
    method SelectSuggestion(suggestion: string)
      modifies this
      requires Valid()
      ensures Valid()
      ensures value == suggestion && !showSuggestions && selectedIndex == -1
      ensures suggestions == old(suggestions)
    {
      value := suggestion;
      showSuggestions := false;
      selectedIndex := -1;
    }

    /**
     * `handleKeyDown`: with the list hidden every key is ignored; otherwise the
     * arrows move the highlight, Enter on a highlighted entry selects it,
     * Escape hides the list, and any other key changes nothing.
     */
    method HandleKeyDown(key: Key)
      modifies this
      requires Valid()
      ensures Valid()
      ensures suggestions == old(suggestions)
      ensures !old(showSuggestions) || key == OtherKey || (key == Enter && old(selectedIndex) < 0) ==>
        value == old(value) && showSuggestions == old(showSuggestions) && selectedIndex == old(selectedIndex)
      ensures old(showSuggestions) && key == ArrowDown ==>
        value == old(value) && showSuggestions && selectedIndex == StepDown(old(selectedIndex), |suggestions|)
      ensures old(showSuggestions) && key == ArrowUp ==>
        value == old(value) && showSuggestions && selectedIndex == StepUp(old(selectedIndex))
      ensures old(showSuggestions) && key == Enter && old(selectedIndex) >= 0 ==>
        value == old(suggestions[selectedIndex]) && !showSuggestions && selectedIndex == -1
      ensures old(showSuggestions) && key == Escape ==>
        value == old(value) && !showSuggestions && selectedIndex == -1
    {
      if !showSuggestions {
        return;
      }
      match key
      case ArrowDown =>
        selectedIndex := StepDown(selectedIndex, |suggestions|);
      case ArrowUp =>
        selectedIndex := StepUp(selectedIndex);
      case Enter =>
        if selectedIndex >= 0 {
          SelectSuggestion(suggestions[selectedIndex]);
        }
      case Escape =>
        showSuggestions := false;
        selectedIndex := -1;
      case OtherKey =>
    }
  }
}
