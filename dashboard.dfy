/**
 * The decisions of the generation page (src/pages/Dashboard.tsx): whether a
 * generation request is made at all, what the editor is handed once the
 * generation API has answered, and when keyword suggestions are looked up.
 * The two API calls are not modelled; their outcome is a parameter.
 */
module Dashboard {
  import opened Wrappers
  import opened Text
  import opened OutlineModel
  import opened OutlineParser

  /** What an awaited API call gave: a value, or the message of the error it threw. */
  datatype Reply<T> = Answered(value: T) | Threw(message: string)

  /** The fields of the generation API's JSON reply that the page reads; absent ones are `None`. */
  datatype GenerateResponse = GenerateResponse(generatedContent: Option<string>, topic: Option<string>)

  /** The navigation state handed to the editor page. */
  datatype EditorState = EditorState(keyword: string, outputType: string, audience: string, tone: string, outline: Outline)

  /** What one press of the generate button leads to. */
  datatype Generation =
    | Refused                   // the "fill in all fields" toast, nothing else
    | Failed(message: string)   // the error toast, no navigation
    | Navigated(state: EditorState)

  const InvalidFormat := "Invalid API response format"
  const FallbackId := "section-0"
  const FallbackTitle := "Generated Content"
  /** Suggestions are looked up only for keywords longer than this. */
  const SuggestionThreshold := 2

  /** JavaScript truthiness of an optional string: present and non-empty. */
  predicate Truthy(s: Option<string>) {
    s.Some? && s.value != []
  }

  /** `!keyword || !outputType || !audience || !tone` is false. */
  predicate FieldsComplete(keyword: string, outputType: string, audience: string, tone: string) {
    keyword != [] && outputType != [] && audience != [] && tone != []
  }

  /** `data.topic || keyword`. */
  function OutlineTitle(topic: Option<string>, keyword: string): (title: string)
    ensures Truthy(topic) ==> title == topic.value
    ensures !Truthy(topic) ==> title == keyword
  {
    if Truthy(topic) then topic.value else keyword
  }

  /** The single-section outline that carries the raw content when the parser finds no section. */
  function FallbackOutline(title: string, content: string): Outline {
    Outline(title, [Section(FallbackId, 1, FallbackTitle, Some(content))])
  }

  /** The outline the editor gets: the parsed one, or the fallback carrying the raw content when it has no section. */
  function EditorOutline(parsed: Outline, content: string): (o: Outline)
    ensures o.title == parsed.title
    ensures |o.sections| >= 1
    ensures parsed.sections != [] ==> o == parsed
    ensures parsed.sections == [] ==> o.sections == [Section(FallbackId, 1, FallbackTitle, Some(content))]
  {
    if parsed.sections == [] then FallbackOutline(parsed.title, content) else parsed
  }

  /**
   * `handleGenerateOutline`, as a function of the form fields and the API's
   * reply: refused exactly when a field is empty, a failure when the call
   * threw or the reply has no content, and otherwise a navigation to the
   * editor with an outline that has at least one section.
   */
  function GenerationOutcome(keyword: string, outputType: string, audience: string, tone: string,
                             reply: Reply<GenerateResponse>): (g: Generation)
    ensures g == Refused <==> !FieldsComplete(keyword, outputType, audience, tone)
    ensures g.Navigated? <==>
      FieldsComplete(keyword, outputType, audience, tone) && reply.Answered? && Truthy(reply.value.generatedContent)
    ensures g.Failed? && reply.Answered? ==> g.message == InvalidFormat
    ensures g.Failed? && reply.Threw? ==> g.message == reply.message
    ensures g.Navigated? ==>
      && g.state == EditorState(keyword, outputType, audience, tone, g.state.outline)
      && g.state.outline.title == OutlineTitle(reply.value.topic, keyword)
      && |g.state.outline.sections| >= 1
  {
    if !FieldsComplete(keyword, outputType, audience, tone) then Refused
    else
      match reply
      case Threw(message) => Failed(message)
      case Answered(data) =>
        if !Truthy(data.generatedContent) then Failed(InvalidFormat)
        else
          var content := data.generatedContent.value;
          var title := OutlineTitle(data.topic, keyword);
          Navigated(EditorState(keyword, outputType, audience, tone,
            EditorOutline(Outline(title, GeneratedSections(NonBlankLines(content))), content)))
  }

  /** When the parser finds sections, the editor gets exactly the parsed outline. */
  lemma ParsedOutlineForwarded(keyword: string, outputType: string, audience: string, tone: string,
                               data: GenerateResponse)
    requires FieldsComplete(keyword, outputType, audience, tone) && Truthy(data.generatedContent)
    requires GeneratedSections(NonBlankLines(data.generatedContent.value)) != []
    ensures var g := GenerationOutcome(keyword, outputType, audience, tone, Answered(data));
      && g.Navigated?
      && g.state.outline.sections == GeneratedSections(NonBlankLines(data.generatedContent.value))
  {
  }

  /** Content that is only whitespace parses to nothing, so the editor gets the fallback outline. */
  lemma BlankContentFallsBack(keyword: string, outputType: string, audience: string, tone: string,
                              data: GenerateResponse)
    requires FieldsComplete(keyword, outputType, audience, tone) && Truthy(data.generatedContent)
    requires AllSpace(data.generatedContent.value)
    ensures var g := GenerationOutcome(keyword, outputType, audience, tone, Answered(data));
      && g.Navigated?
      && g.state.outline == FallbackOutline(OutlineTitle(data.topic, keyword), data.generatedContent.value)
  {
    BlankContentHasNoSections(data.generatedContent.value);
  }

  /** The page's state fields. */
  class DashboardPage {
    var keyword: string
    var outputType: string
    var audience: string
    var tone: string
    var isLoading: bool
    var suggestions: seq<string>
    var showSuggestions: bool
    var isLoadingSuggestions: bool

    /** The initial `useState` values. */
    constructor ()
      ensures keyword == [] && outputType == [] && audience == [] && tone == []
      ensures !isLoading && suggestions == [] && !showSuggestions && !isLoadingSuggestions
    {
      keyword, outputType, audience, tone := [], [], [], [];
      isLoading := false;
      suggestions := [];
      showSuggestions := false;
      isLoadingSuggestions := false;
    }

    /**
     * `handleGenerateOutline`, with the API's reply as the parameter: the
     * outcome is `GenerationOutcome`, the form is untouched, and `isLoading`
     * is back to false once a request was made.
     */
    method HandleGenerateOutline(reply: Reply<GenerateResponse>) returns (outcome: Generation)
      modifies this
      ensures outcome == GenerationOutcome(keyword, outputType, audience, tone, reply)
      ensures keyword == old(keyword) && outputType == old(outputType)
      ensures audience == old(audience) && tone == old(tone)
      ensures suggestions == old(suggestions) && showSuggestions == old(showSuggestions)
      ensures isLoadingSuggestions == old(isLoadingSuggestions)
      ensures isLoading == (if outcome == Refused then old(isLoading) else false)
    {
      if keyword == [] || outputType == [] || audience == [] || tone == [] {
        return Refused;
      }
      isLoading := true;
      match reply {
        case Threw(message) =>
          outcome := Failed(message);
        case Answered(data) =>
          if data.generatedContent.None? || data.generatedContent.value == [] {
            outcome := Failed(InvalidFormat);
          } else {
            var content := data.generatedContent.value;
            var parsed := ParseGeneratedContent(content, OutlineTitle(data.topic, keyword));
            var state;
            if |parsed.sections| == 0 {
              var fallback := Outline(OutlineTitle(data.topic, keyword), [Section(FallbackId, 1, FallbackTitle, Some(content))]);
              state := EditorState(keyword, outputType, audience, tone, fallback);
            } else {
              state := EditorState(keyword, outputType, audience, tone, parsed);
            }
            outcome := Navigated(state);
          }
      }
      isLoading := false;
    }

    /**
     * `handleKeywordChange`, with the suggestion API's reply as the parameter
     * (it is consulted only when a look-up is made): a keyword longer than
     * two characters replaces the list by the reply and shows it, or empties
     * it after a failed call; a shorter one only hides the list.
     */
    method HandleKeywordChange(value: string, fetched: Reply<seq<string>>)
      modifies this
      ensures keyword == value
      ensures outputType == old(outputType) && audience == old(audience) && tone == old(tone)
      ensures isLoading == old(isLoading)
      ensures Utf16Length(value) > SuggestionThreshold && fetched.Answered? ==>
        suggestions == fetched.value && showSuggestions
      ensures Utf16Length(value) > SuggestionThreshold && fetched.Threw? ==>
        suggestions == [] && showSuggestions == old(showSuggestions)
      ensures Utf16Length(value) > SuggestionThreshold ==> !isLoadingSuggestions
      ensures Utf16Length(value) <= SuggestionThreshold ==>
        suggestions == old(suggestions) && !showSuggestions && isLoadingSuggestions == old(isLoadingSuggestions)
    {
      keyword := value;
      if Utf16Length(value) > SuggestionThreshold {
        isLoadingSuggestions := true;
        match fetched {
          case Answered(list) =>
            suggestions := list;
            showSuggestions := true;
          case Threw(_) =>
            suggestions := [];
        }
        isLoadingSuggestions := false;
      } else {
        showSuggestions := false;
      }
    }

    /** `selectSuggestion`: the suggestion becomes the keyword and the list is hidden. */
    method SelectSuggestion(suggestion: string)
      modifies this
      ensures keyword == suggestion && !showSuggestions
      ensures outputType == old(outputType) && audience == old(audience) && tone == old(tone)
      ensures suggestions == old(suggestions) && isLoading == old(isLoading)
      ensures isLoadingSuggestions == old(isLoadingSuggestions)
    {
      keyword := suggestion;
      showSuggestions := false;
    }
  }
}
