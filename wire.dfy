/** The JSON objects the backend hands to the frontend and the frontend keeps
    in its state: the detected theme, a gap analysis and a topic
    classification.  A key the language model may leave out is an `Option`. */
module Wire {
  import opened Wrappers

  /** The body of a successful `/detect-theme` reply; the frontend stores it
      whole as its theme. `dimensions` lists the table entry's viewpoints;
      the order the frontend sees them in is not modelled. */
  datatype ThemeInfo = ThemeInfo(
    theme: string,
    themeName: string,
    description: string,
    dimensions: seq<(string, string)>,
    confidence: int,
    reason: string)

  /** The object the model returns for `/analyze-gaps`. */
  datatype GapAnalysis = GapAnalysis(
    coverage: Option<map<string, int>>,
    missingPerspectives: Option<seq<string>>,
    suggestions: Option<seq<string>>,
    overallBalance: Option<int>)

  /** One topic: its name, a short description and the zero-based indices of
      the utterances it groups. */
  datatype Topic = Topic(name: string, description: string, speechIndices: seq<int>)

  /** The object the model returns for `/classify-topics`. */
  datatype TopicClassification = TopicClassification(topics: Option<seq<Topic>>)
}
