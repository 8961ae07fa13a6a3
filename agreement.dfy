/** How the frontend and the backend fit together: the JSON bodies the
    frontend's requests become, the answers the backend gives them, and where
    the two sanitisers agree and where they part. */
module Agreement {
  import opened Wrappers
  import opened Text
  import opened Wire
  import App
  import Backend

  /** `currentHistory.map(h => ({ transcript: h.transcript }))`. */
  function Items(ts: seq<string>): (items: seq<Backend.HistoryItem>)
    ensures Backend.ItemTranscripts(items) == ts
  {
    seq(|ts|, i requires 0 <= i < |ts| => Backend.HistoryItem(Some(ts[i])))
  }

  /** The backend's answer to a request of the frontend, the language model
      and `json.loads` being parameters. */
  function Serve(req: App.Request, generate: Backend.Prompt -> Option<string>,
                 parseTheme: string -> Option<Backend.ThemeGuess>,
                 parseGaps: string -> Option<GapAnalysis>,
                 parseTopics: string -> Option<TopicClassification>): Backend.Response
  {
    match req
    case DetectThemeRequest(hs) =>
      Backend.DetectTheme(Some(Backend.HistoriesBody(Some(Items(hs)), None)), generate, parseTheme)
    case AnalyzeRequest(t, theme) =>
      Backend.Analyze(Some(Backend.AnalyzeBody(Some(t), Some(theme))), generate)
    case GapsRequest(hs, theme) =>
      Backend.AnalyzeGaps(Some(Backend.HistoriesBody(Some(Items(hs)), Some(theme))), generate, parseGaps)
    case TopicsRequest(hs) =>
      Backend.ClassifyTopics(Some(Backend.HistoriesBody(Some(Items(hs)), None)), generate, parseTopics)
  }

  /** A request the frontend sends is never turned away for too short a
      history: the backend either answers it in full or fails (an exception
      of the model or of `json.loads`). */
  lemma SentRequestsAreAnswered(req: App.Request, generate: Backend.Prompt -> Option<string>,
                                parseTheme: string -> Option<Backend.ThemeGuess>,
                                parseGaps: string -> Option<GapAnalysis>,
                                parseTopics: string -> Option<TopicClassification>)
    requires App.MeetsThreshold(req)
    ensures var r := Serve(req, generate, parseTheme, parseGaps, parseTopics);
      !r.Declined? && !r.GapsSkipped?
  {
  }

  /** The frontend always names the theme of an analysis, so the backend's
      own default (equipment investment) never applies: the viewpoints used
      are those of the id sent, or of `general` for an unknown id. */
  lemma AnalysisUsesSentTheme(t: string, theme: string, generate: Backend.Prompt -> Option<string>,
                              parseTheme: string -> Option<Backend.ThemeGuess>,
                              parseGaps: string -> Option<GapAnalysis>,
                              parseTopics: string -> Option<TopicClassification>)
    requires Serve(App.AnalyzeRequest(t, theme), generate, parseTheme, parseGaps, parseTopics).Analyzed?
    ensures var r := Serve(App.AnalyzeRequest(t, theme), generate, parseTheme, parseGaps, parseTopics);
      r.themeUsed == theme && r.dimensionsUsed == Backend.Lookup(theme).dimensions
  {
  }

  /** A text without backquotes passes both fence removals unchanged. */
  lemma RemoveMatchesWithoutFirstChar(s: string, lit: string, eatSpace: bool)
    requires |lit| > 0 && lit[0] !in s
    ensures RemoveMatches(s, lit, eatSpace) == s
  {
    RemoveMatchesPlainPrefix(s, [], lit, eatSpace);
    assert s + [] == s;
  }

  lemma NoFencesToStrip(raw: string)
    requires '`' !in raw
    ensures App.StripFences(raw) == raw && Backend.StripFencesPy(raw) == raw
  {
    RemoveMatchesWithoutFirstChar(raw, "```json", true);
    RemoveMatchesWithoutFirstChar(raw, Fence, true);
    RemoveMatchesWithoutFirstChar(raw, "```json\n", false);
    RemoveMatchesWithoutFirstChar(raw, Fence, false);
  }

  /** On a reply without backquotes whose first `{` precedes its last `}`,
      or that lacks a brace, both sanitisers give the same text. */
  lemma SanitizersAgree(raw: string)
    requires '`' !in raw
    requires IndexOf(raw, '{') <= LastIndexOf(raw, '}') || '{' !in raw || '}' !in raw
    ensures App.CleanJson(raw) == Backend.CleanPy(raw)
  {
    NoFencesToStrip(raw);
  }

  /** When the last `}` comes before the first `{` with text between them,
      the two sanitisers disagree: JavaScript's `substring` swaps its bounds
      and keeps that text, Python's slice is empty. */
  lemma SanitizersDisagreeOnInvertedBraces(raw: string, i: nat, j: nat)
    requires '`' !in raw
    requires j + 1 < i < |raw|
    requires raw[i] == '{' && '{' !in raw[..i]
    requires raw[j] == '}' && '}' !in raw[j + 1..]
    ensures App.CleanJson(raw) == raw[j + 1..i] != ""
    ensures Backend.CleanPy(raw) == ""
  {
    NoFencesToStrip(raw);
    App.CleanJsonInverted(raw, i, j);
    Backend.CleanPyInverted(raw, i, j);
  }
}
