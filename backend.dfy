/** The request shaping of the analysis service: the table of evaluation
    viewpoints per meeting theme with its `general` fallback, the structural
    pieces of the prompts (dimension descriptions, numbered utterance
    listings), the sanitiser that extracts the JSON object from the language
    model's reply, and the four endpoints' early returns and derived fields.
    The language model (`generate_content`) and `json.loads` are parameters:
    `None` stands for the exception either raises. */
module Backend {
  import opened Wrappers
  import opened Text
  import opened Wire

  // ---------------------------------------------------------------------------
  // The viewpoint table

  /** One entry of the table: a display name, the ordered (key, label)
      viewpoints and a description. */
  datatype DimensionSet = DimensionSet(themeName: string, dimensions: seq<(string, string)>, description: string)

  const General: string := "general"

  /** `DIMENSION_SETS`: the five meeting themes and the general fallback. */
  const DimensionSets: map<string, DimensionSet> := map[
    "equipment_investment" := DimensionSet(
      "設備投資・設備導入",
      [("cost_concern", "コスト重視度"), ("safety_concern", "安全性重視度"),
       ("efficiency_focus", "効率性重視度"), ("people_focus", "人材育成重視度"),
       ("time_horizon", "時間軸")],
      "設備投資や新規導入の検討に適した視点"),
    "hr_evaluation" := DimensionSet(
      "人事評価・採用",
      [("performance", "成果・実績"), ("skill_development", "能力開発"),
       ("team_contribution", "チーム貢献"), ("leadership", "リーダーシップ"),
       ("potential", "将来性")],
      "人事評価や採用判断に適した視点"),
    "product_development" := DimensionSet(
      "新製品開発",
      [("market_fit", "市場性"), ("technical_feasibility", "技術実現性"),
       ("competitive_advantage", "競合優位性"), ("profitability", "収益性"),
       ("brand_fit", "ブランド適合性")],
      "新製品・サービス開発に適した視点"),
    "budget_planning" := DimensionSet(
      "予算策定・コスト削減",
      [("priority", "優先度"), ("roi", "費用対効果"), ("risk", "リスク"),
       ("feasibility", "実行可能性"), ("strategic_alignment", "戦略整合性")],
      "予算や投資判断に適した視点"),
    "process_improvement" := DimensionSet(
      "業務改善・プロセス改革",
      [("efficiency", "効率性"), ("quality", "品質向上"), ("workload", "従業員負担"),
       ("implementation", "導入難易度"), ("sustainability", "持続可能性")],
      "業務プロセスの改善に適した視点"),
    "general" := DimensionSet(
      "その他 (汎用)",
      [("cost_concern", "コスト"), ("quality", "品質"), ("efficiency_focus", "効率性"),
       ("people_focus", "人材"), ("risk", "リスク")],
      "汎用的な評価視点")
  ]

  /** `list(dimensions.keys())`. */
  function Keys(dims: seq<(string, string)>): (ks: seq<string>)
    ensures |ks| == |dims|
    ensures forall i :: 0 <= i < |dims| ==> ks[i] == dims[i].0
  {
    seq(|dims|, i requires 0 <= i < |dims| => dims[i].0)
  }

  predicate Distinct(ks: seq<string>) {
    forall i, j :: 0 <= i < j < |ks| ==> ks[i] != ks[j]
  }

  /** Every entry has exactly five viewpoints, no key twice. */
  predicate WellFormedSet(d: DimensionSet) {
    |d.dimensions| == 5 && Distinct(Keys(d.dimensions))
  }

  lemma TableWellFormed()
    ensures DimensionSets.Keys == {"equipment_investment", "hr_evaluation", "product_development",
                                   "budget_planning", "process_improvement", General}
    ensures forall id :: id in DimensionSets ==> WellFormedSet(DimensionSets[id])
  {
    forall id | id in DimensionSets
      ensures WellFormedSet(DimensionSets[id])
    {
      var ks := Keys(DimensionSets[id].dimensions);
      assert |ks| == 5;
    }
  }

  /** `DIMENSION_SETS.get(theme, DIMENSION_SETS['general'])`: an id outside
      the table gets the general entry; every answer has five distinct keys. */
  function Lookup(theme: string): (d: DimensionSet)
    ensures theme in DimensionSets ==> d == DimensionSets[theme]
    ensures theme !in DimensionSets ==> d == DimensionSets[General]
    ensures WellFormedSet(d)
  {
    TableWellFormed();
    if theme in DimensionSets then DimensionSets[theme] else DimensionSets[General]
  }

  // ---------------------------------------------------------------------------
  // Prompt pieces

  /** The last viewpoint is a category (short/middle/long term) exactly when
      `time_horizon` or `potential` is among the keys. */
  predicate Categorical(keys: seq<string>) {
    "time_horizon" in keys || "potential" in keys
  }

  /** `  "k": 0-10,`: a viewpoint other than the last, scored 0 to 10. */
  function ScoreRow(k: string): string {
    "  \"" + k + "\": 0-10,"
  }

  /** The last viewpoint's line: a category or a 0-10 score, no comma. */
  function LastRow(k: string, categorical: bool): string {
    "  \"" + k + "\": " + (if categorical then "\"短期/中期/長期\"" else "0-10")
  }

  /** The lines the descriptions consist of, one per key, in key order. */
  function DescriptionRows(keys: seq<string>): (rows: seq<string>)
    requires |keys| >= 1
    ensures |rows| == |keys|
    ensures forall i :: 0 <= i < |keys| - 1 ==> rows[i] == ScoreRow(keys[i])
    ensures rows[|keys| - 1] == LastRow(keys[|keys| - 1], Categorical(keys))
  {
    seq(|keys| - 1, i requires 0 <= i < |keys| - 1 => ScoreRow(keys[i]))
      + [LastRow(keys[|keys| - 1], Categorical(keys))]
  }

  /** `dimension_descriptions`: the joined score rows of all keys but the
      last, then a newline and the last key's row. */
  function DimensionDescriptions(keys: seq<string>): string
    requires |keys| >= 1
  {
    var rows := seq(|keys| - 1, i requires 0 <= i < |keys| - 1 => ScoreRow(keys[i]));
    Join("\n", rows) + "\n" + LastRow(keys[|keys| - 1], Categorical(keys))
  }

  /** With at least two keys, none holding a newline, the descriptions are
      exactly one line per key: a score row for each but the last and the
      last key's row, which is a category iff `Categorical(keys)`. */
  lemma DescriptionLines(keys: seq<string>)
    requires |keys| >= 2
    requires forall i :: 0 <= i < |keys| ==> '\n' !in keys[i]
    ensures Split(DimensionDescriptions(keys), '\n') == DescriptionRows(keys)
  {
    var n := |keys|;
    var rows := DescriptionRows(keys);
    var front := seq(n - 1, i requires 0 <= i < n - 1 => ScoreRow(keys[i]));
    assert rows == front + [rows[n - 1]];
    JoinSnoc("\n", front, rows[n - 1]);
    assert DimensionDescriptions(keys) == Join("\n", rows);
    forall i | 0 <= i < n
      ensures '\n' !in rows[i]
    {
    }
    SplitJoin(rows, '\n');
  }

  /** Of the table's themes, exactly equipment investment (`time_horizon`)
      and HR evaluation (`potential`) render their last viewpoint as a
      category; every other id, the fallback included, scores it 0-10. */
  lemma CategoricalThemes(theme: string)
    ensures Categorical(Keys(Lookup(theme).dimensions)) <==>
      theme == "equipment_investment" || theme == "hr_evaluation"
  {
    var ks := Keys(Lookup(theme).dimensions);
    if theme == "equipment_investment" {
      assert ks[4] == "time_horizon";
    } else if theme == "hr_evaluation" {
      assert ks[4] == "potential";
    } else {
      assert "time_horizon" !in ks && "potential" !in ks;
    }
  }

  /** `発言{i+1}: t`: one line of the gap-analysis listing. */
  function HistoryLine(i: nat, t: string): string {
    "発言" + Decimal(i + 1) + ": " + t
  }

  /** `{i+1}. t`: one line of the topic-classification listing. */
  function SpeechLine(i: nat, t: string): string {
    Decimal(i + 1) + ". " + t
  }

  function HistoryLines(ts: seq<string>): (lines: seq<string>)
    ensures |lines| == |ts|
    ensures forall i :: 0 <= i < |ts| ==> lines[i] == HistoryLine(i, ts[i])
  {
    seq(|ts|, i requires 0 <= i < |ts| => HistoryLine(i, ts[i]))
  }

  function SpeechLines(ts: seq<string>): (lines: seq<string>)
    ensures |lines| == |ts|
    ensures forall i :: 0 <= i < |ts| ==> lines[i] == SpeechLine(i, ts[i])
  {
    seq(|ts|, i requires 0 <= i < |ts| => SpeechLine(i, ts[i]))
  }

  /** `history_text` of `/analyze-gaps`. */
  function HistoryText(ts: seq<string>): string {
    Join("\n", HistoryLines(ts))
  }

  /** `speeches_text` of `/classify-topics`. */
  function SpeechesText(ts: seq<string>): string {
    Join("\n", SpeechLines(ts))
  }

  lemma DecimalHasNoNewline(n: nat)
    ensures '\n' !in Decimal(n)
  {
    var d := Decimal(n);
    forall i | 0 <= i < |d|
      ensures d[i] != '\n'
    {
    }
  }

  /** A line of the topic listing reads back as its number `i + 1`, then
      `. ` and the transcript. */
  lemma SpeechLineReadsBack(i: nat, t: string)
    ensures var line := SpeechLine(i, t);
      var w := |Decimal(i + 1)|;
      && w < |line| && line[w..] == ". " + t
      && (forall k :: 0 <= k < w ==> '0' <= line[k] <= '9')
      && ParseDecimal(line[..w]) == i + 1
  {
    var num := Decimal(i + 1);
    var line := SpeechLine(i, t);
    assert line == num + (". " + t);
    assert line[..|num|] == num;
    DecimalRoundTrip(i + 1);
  }

  /** A line of the gap listing reads back as `発言`, its number `i + 1`,
      then `: ` and the transcript. */
  lemma HistoryLineReadsBack(i: nat, t: string)
    ensures var line := HistoryLine(i, t);
      var w := |Decimal(i + 1)|;
      && 2 + w < |line| && line[..2] == "発言" && line[2 + w..] == ": " + t
      && (forall k :: 2 <= k < 2 + w ==> '0' <= line[k] <= '9')
      && ParseDecimal(line[2..2 + w]) == i + 1
  {
    var num := Decimal(i + 1);
    var line := HistoryLine(i, t);
    assert line == "発言" + num + (": " + t);
    assert line[2..2 + |num|] == num;
    DecimalRoundTrip(i + 1);
  }

  /** The topic listing has one line per utterance, in input order, when no
      transcript holds a line break. */
  lemma SpeechesNumberedInOrder(ts: seq<string>)
    requires |ts| >= 1
    requires forall k :: 0 <= k < |ts| ==> '\n' !in ts[k]
    ensures Split(SpeechesText(ts), '\n') == SpeechLines(ts)
  {
    var lines := SpeechLines(ts);
    forall k | 0 <= k < |lines|
      ensures '\n' !in lines[k]
    {
      DecimalHasNoNewline(k + 1);
    }
    SplitJoin(lines, '\n');
  }

  /** The gap listing has one line per utterance, in input order, when no
      transcript holds a line break. */
  lemma HistoryNumberedInOrder(ts: seq<string>)
    requires |ts| >= 1
    requires forall k :: 0 <= k < |ts| ==> '\n' !in ts[k]
    ensures Split(HistoryText(ts), '\n') == HistoryLines(ts)
  {
    var lines := HistoryLines(ts);
    forall k | 0 <= k < |lines|
      ensures '\n' !in lines[k]
    {
      DecimalHasNoNewline(k + 1);
    }
    SplitJoin(lines, '\n');
  }

  /** One line of `dimension_list`: `{number}. key (label)`. */
  function DimensionRow(number: nat, dim: (string, string)): string {
    Decimal(number) + ". " + dim.0 + " (" + dim.1 + ")"
  }

  /** `dimension_list`: `{i+1}. key (label)` per viewpoint. */
  function DimensionList(dims: seq<(string, string)>): string {
    Join("\n", seq(|dims|, i requires 0 <= i < |dims| => DimensionRow(i + 1, dims[i])))
  }

  /** The viewpoint list names every viewpoint with its label, numbered by
      its position. */
  lemma DimensionListNamesEveryKey(dims: seq<(string, string)>, k: nat)
    requires k < |dims|
    ensures Contains(DimensionList(dims), DimensionRow(k + 1, dims[k]))
  {
    var rows := seq(|dims|, i requires 0 <= i < |dims| => DimensionRow(i + 1, dims[i]));
    JoinContains("\n", rows, k);
  }

  function CoverageRow(key: string): string {
    "\"" + key + "\": 0-10の数値"
  }

  /** `coverage_format`: one `"key": 0-10の数値` per viewpoint. */
  function CoverageFormat(dims: seq<(string, string)>): string {
    Join(",\n    ", seq(|dims|, i requires 0 <= i < |dims| => CoverageRow(dims[i].0)))
  }

  /** The coverage skeleton asks for a score of every viewpoint. */
  lemma CoverageAsksForEveryKey(dims: seq<(string, string)>, k: nat)
    requires k < |dims|
    ensures Contains(CoverageFormat(dims), CoverageRow(dims[k].0))
  {
    var rows := seq(|dims|, i requires 0 <= i < |dims| => CoverageRow(dims[i].0));
    JoinContains(",\n    ", rows, k);
  }

  // ---------------------------------------------------------------------------
  // Sanitiser

  /** `.replace('```json\n', '').replace('```', '')`: literal removals, no
      whitespace swallowed beyond the one newline. */
  function StripFencesPy(raw: string): (r: string)
    ensures |r| <= |raw|
    ensures !HasFence(r)
  {
    var once := RemoveMatches(raw, "```json\n", false);
    RemoveFencesLeavesNone(once, false);
    RemoveMatches(once, Fence, false)
  }

  /** Slicing a fence-free text leaves it fence-free. */
  lemma NarrowPyKeepsNoFence(c: string)
    requires !HasFence(c)
    ensures !HasFence(NarrowPy(c))
  {
    var start := IndexOf(c, '{');
    var end := LastIndexOf(c, '}');
    if start != -1 && end != -1 && start <= end {
      FenceFreeSlice(c, start, end + 1);
    }
  }

  /** The cleaned model reply: fences removed, then `text[first{ : last}+1]`
      when both braces occur; a slice whose end precedes its start is empty. */
  function CleanPy(raw: string): (r: string)
    ensures !HasFence(r)
  {
    NarrowPyKeepsNoFence(StripFencesPy(raw));
    NarrowPy(StripFencesPy(raw))
  }

  /** `c[c.find('{'):c.rfind('}') + 1]` when both braces occur. */
  function NarrowPy(c: string): (r: string)
    ensures '{' !in c || '}' !in c ==> r == c
  {
    var start := IndexOf(c, '{');
    var end := LastIndexOf(c, '}');
    if start != -1 && end != -1 then
      (if start <= end then c[start..end + 1] else "")
    else c
  }

  lemma StripFencesPyKeepsBraces(raw: string)
    ensures '{' in StripFencesPy(raw) <==> '{' in raw
    ensures '}' in StripFencesPy(raw) <==> '}' in raw
  {
    var once := RemoveMatches(raw, "```json\n", false);
    RemoveMatchesKeepsChar(raw, "```json\n", false, '{');
    RemoveMatchesKeepsChar(raw, "```json\n", false, '}');
    RemoveMatchesKeepsChar(once, Fence, false, '{');
    RemoveMatchesKeepsChar(once, Fence, false, '}');
  }

  /** With a first `{` at `i` and a last `}` at `j`, the slice is the
      inclusive span when `i <= j` and empty otherwise. */
  lemma NarrowPyBetween(c: string, i: nat, j: nat)
    requires i < |c| && j < |c|
    requires c[i] == '{' && '{' !in c[..i]
    requires c[j] == '}' && '}' !in c[j + 1..]
    ensures i <= j ==> NarrowPy(c) == c[i..j + 1]
    ensures j < i ==> NarrowPy(c) == ""
  {
    IndexOfIs(c, '{', i);
    LastIndexOfIs(c, '}', j);
  }

  /** With a first `{` at `i` and a last `}` at `j >= i`, the cleaned reply is
      the inclusive span between them. */
  lemma CleanPySpan(raw: string, i: nat, j: nat)
    requires i <= j < |StripFencesPy(raw)|
    requires StripFencesPy(raw)[i] == '{' && '{' !in StripFencesPy(raw)[..i]
    requires StripFencesPy(raw)[j] == '}' && '}' !in StripFencesPy(raw)[j + 1..]
    ensures CleanPy(raw) == StripFencesPy(raw)[i..j + 1]
  {
    NarrowPyBetween(StripFencesPy(raw), i, j);
  }

  /** When the last `}` comes before the first `{`, the slice is empty. */
  lemma CleanPyInverted(raw: string, i: nat, j: nat)
    requires j < i < |StripFencesPy(raw)|
    requires StripFencesPy(raw)[i] == '{' && '{' !in StripFencesPy(raw)[..i]
    requires StripFencesPy(raw)[j] == '}' && '}' !in StripFencesPy(raw)[j + 1..]
    ensures CleanPy(raw) == ""
  {
    NarrowPyBetween(StripFencesPy(raw), i, j);
  }

  /** A reply lacking either brace is only stripped of its fences. */
  lemma CleanPyWithoutBraces(raw: string)
    requires '{' !in raw || '}' !in raw
    ensures CleanPy(raw) == StripFencesPy(raw)
  {
    StripFencesPyKeepsBraces(raw);
  }

  // ---------------------------------------------------------------------------
  // Endpoints

  /** One element of `histories`: an object whose `transcript` may be absent. */
  datatype HistoryItem = HistoryItem(transcript: Option<string>)

  /** The JSON object posted to `/analyze`. */
  datatype AnalyzeBody = AnalyzeBody(transcript: Option<string>, theme: Option<string>)

  /** The JSON object posted to `/detect-theme`, `/analyze-gaps` and
      `/classify-topics`. */
  datatype HistoriesBody = HistoriesBody(histories: Option<seq<HistoryItem>>, theme: Option<string>)

  /** The object the model returns for `/detect-theme`. */
  datatype ThemeGuess = ThemeGuess(theme: Option<string>, confidence: Option<int>, reason: Option<string>)

  /** What is sent to the language model; the surrounding wording is left out. */
  datatype Prompt =
    | AnalysisPrompt(transcript: string, themeName: string, dimensions: seq<(string, string)>, descriptions: string)
    | ThemePrompt(utterances: string)
    | GapPrompt(themeName: string, historyText: string, dimensionList: string, coverageFormat: string)
    | TopicPrompt(speeches: string)

  const DefaultAnalyzeTheme: string := "equipment_investment"
  const DefaultConfidence: int := 5
  const ThemeTooFewMessage: string := "発言が不足しています"
  const TopicsTooFewMessage: string := "発言数が少ないため、トピック分類できません"

  /** The JSON replies and their HTTP status. */
  datatype Response =
    | Analyzed(analysis: string, themeUsed: string, dimensionsUsed: seq<(string, string)>)
    | ThemeDetected(info: ThemeInfo)
    /** `success: True, has_gaps: False` with the "too few utterances" note. */
    | GapsSkipped
    | GapsReported(hasGaps: bool, report: GapAnalysis, themeUsed: string, dimensionsUsed: seq<(string, string)>)
    | Classified(classification: TopicClassification)
    /** `success: False` with a message, for too short a history. */
    | Declined(status: int, message: string)
    /** `success: False` with the exception text, status 500. */
    | Failed
  {
    predicate Success() {
      !Declined? && !Failed?
    }

    function Status(): int {
      if Declined? then status else if Failed? then 500 else 200
    }
  }

  /** `h.get('transcript', '')` for every element, in order. */
  function ItemTranscripts(items: seq<HistoryItem>): (ts: seq<string>)
    ensures |ts| == |items|
    ensures forall i :: 0 <= i < |items| ==> ts[i] == items[i].transcript.GetOr("")
  {
    seq(|items|, i requires 0 <= i < |items| => items[i].transcript.GetOr(""))
  }

  /** The prompt of `/analyze` for a posted transcript under a theme id. */
  function AnalysisPromptFor(transcript: string, theme: string): Prompt {
    var entry := Lookup(theme);
    AnalysisPrompt(transcript, entry.themeName, entry.dimensions, DimensionDescriptions(Keys(entry.dimensions)))
  }

  /** `analyze`: the theme defaults to equipment investment when absent; the
      model's text is returned unsanitised with the id as posted and the
      viewpoints of its (fallback) table entry. `body == None` is a request
      that is not a JSON object. */
  function Analyze(body: Option<AnalyzeBody>, generate: Prompt -> Option<string>): (r: Response)
    ensures r.Analyzed? || r.Failed?
    ensures r.Analyzed? <==>
      body.Some? && generate(AnalysisPromptFor(body.value.transcript.GetOr(""),
                                               body.value.theme.GetOr(DefaultAnalyzeTheme))).Some?
    ensures r.Analyzed? ==>
      && r.themeUsed == body.value.theme.GetOr(DefaultAnalyzeTheme)
      && r.dimensionsUsed == Lookup(r.themeUsed).dimensions
      && |r.dimensionsUsed| == 5
    ensures r.Analyzed? ==>
      r.analysis == generate(AnalysisPromptFor(body.value.transcript.GetOr(""),
                                               body.value.theme.GetOr(DefaultAnalyzeTheme))).value
  {
    if body.None? then Failed
    else
      var transcript := body.value.transcript.GetOr("");
      var theme := body.value.theme.GetOr(DefaultAnalyzeTheme);
      match generate(AnalysisPromptFor(transcript, theme))
      case None => Failed
      case Some(text) => Analyzed(text, theme, Lookup(theme).dimensions)
  }

  /** Only the first two utterances, joined by a newline, are shown to the
      model when detecting the theme. */
  function ThemeSample(items: seq<HistoryItem>): (sample: string)
    ensures |items| == 0 ==> sample == ""
    ensures |items| == 1 ==> sample == items[0].transcript.GetOr("")
    ensures |items| >= 2 ==>
      sample == items[0].transcript.GetOr("") + "\n" + items[1].transcript.GetOr("")
  {
    var firstTwo := if |items| <= 2 then items else items[..2];
    var ts := ItemTranscripts(firstTwo);
    assert |items| >= 2 ==>
      && |ts| == 2 && ts[0] == items[0].transcript.GetOr("") && ts[1] == items[1].transcript.GetOr("")
      && ts[1..] == [ts[1]] && Join("\n", ts) == ts[0] + "\n" + Join("\n", [ts[1]]);
    Join("\n", ts)
  }

  /** The theme reply assembled from the model's guess: the id as guessed
      (default `general`), name, viewpoints and description from its
      (fallback) table entry, confidence 5 and an empty reason by default. */
  function ThemeFromGuess(guess: ThemeGuess): (info: ThemeInfo)
    ensures var entry := Lookup(info.theme);
      && info.themeName == entry.themeName && info.dimensions == entry.dimensions
      && info.description == entry.description && |info.dimensions| == 5
    ensures info.theme == guess.theme.GetOr(General)
    ensures guess.confidence.None? ==> info.confidence == DefaultConfidence
    ensures guess.confidence.Some? ==> info.confidence == guess.confidence.value
    ensures guess.reason.None? ==> info.reason == ""
    ensures guess.reason.Some? ==> info.reason == guess.reason.value
  {
    var id := guess.theme.GetOr(General);
    var entry := Lookup(id);
    ThemeInfo(id, entry.themeName, entry.description, entry.dimensions,
              guess.confidence.GetOr(DefaultConfidence), guess.reason.GetOr(""))
  }

  /** `detect_theme`: no utterance is a 400; otherwise the model sees the
      first two transcripts and its cleaned guess is completed from the table. */
  function DetectTheme(body: Option<HistoriesBody>, generate: Prompt -> Option<string>,
                       parse: string -> Option<ThemeGuess>): (r: Response)
    ensures r.ThemeDetected? || r.Declined? || r.Failed?
    ensures r.Declined? <==> body.Some? && |body.value.histories.GetOr([])| == 0
    ensures r.Declined? ==> r.Status() == 400 && r.message == ThemeTooFewMessage
    ensures r.ThemeDetected? <==>
      && body.Some? && |body.value.histories.GetOr([])| >= 1
      && generate(ThemePrompt(ThemeSample(body.value.histories.GetOr([])))).Some?
      && parse(CleanPy(generate(ThemePrompt(ThemeSample(body.value.histories.GetOr([])))).value)).Some?
    ensures r.ThemeDetected? ==>
      r.info == ThemeFromGuess(parse(CleanPy(generate(ThemePrompt(ThemeSample(body.value.histories.GetOr([])))).value)).value)
  {
    if body.None? then Failed
    else
      var histories := body.value.histories.GetOr([]);
      if |histories| < 1 then Declined(400, ThemeTooFewMessage)
      else
        match generate(ThemePrompt(ThemeSample(histories)))
        case None => Failed
        case Some(text) =>
          match parse(CleanPy(text))
          case None => Failed
          case Some(guess) => ThemeDetected(ThemeFromGuess(guess))
  }

  /** Histories that agree on their first two transcripts get the same theme:
      later utterances never influence detection. */
  lemma DetectThemeUsesFirstTwo(a: seq<HistoryItem>, b: seq<HistoryItem>, theme: Option<string>, theme': Option<string>,
                                generate: Prompt -> Option<string>, parse: string -> Option<ThemeGuess>)
    requires |a| >= 2 && |b| >= 2
    requires ItemTranscripts(a[..2]) == ItemTranscripts(b[..2])
    ensures DetectTheme(Some(HistoriesBody(Some(a), theme)), generate, parse)
         == DetectTheme(Some(HistoriesBody(Some(b), theme')), generate, parse)
  {
    assert (if |a| <= 2 then a else a[..2]) == a[..2];
    assert (if |b| <= 2 then b else b[..2]) == b[..2];
    assert ThemeSample(a) == ThemeSample(b);
  }

  /** `has_gaps`: the model named at least one missing viewpoint. */
  function HasGaps(analysis: GapAnalysis): (b: bool)
    ensures b <==> analysis.missingPerspectives.Some? && analysis.missingPerspectives.value != []
  {
    |analysis.missingPerspectives.GetOr([])| > 0
  }

  /** The prompt of `/analyze-gaps` for the posted utterances under a theme. */
  function GapPromptFor(items: seq<HistoryItem>, theme: string): Prompt {
    var entry := Lookup(theme);
    GapPrompt(entry.themeName, HistoryText(ItemTranscripts(items)), DimensionList(entry.dimensions), CoverageFormat(entry.dimensions))
  }

  /** `analyze_gaps`: fewer than two utterances succeed with no gaps and no
      model call; otherwise the cleaned reply is returned with `has_gaps`
      true exactly when it lists a missing viewpoint. The theme defaults to
      `general`. */
  function AnalyzeGaps(body: Option<HistoriesBody>, generate: Prompt -> Option<string>,
                       parse: string -> Option<GapAnalysis>): (r: Response)
    ensures r.GapsSkipped? || r.GapsReported? || r.Failed?
    ensures r.GapsSkipped? <==> body.Some? && |body.value.histories.GetOr([])| < 2
    ensures r.GapsReported? <==>
      && body.Some? && |body.value.histories.GetOr([])| >= 2
      && generate(GapPromptFor(body.value.histories.GetOr([]), body.value.theme.GetOr(General))).Some?
      && parse(CleanPy(generate(GapPromptFor(body.value.histories.GetOr([]),
                                             body.value.theme.GetOr(General))).value)).Some?
    ensures r.GapsReported? ==>
      && r.report == parse(CleanPy(generate(GapPromptFor(body.value.histories.GetOr([]),
                                                         body.value.theme.GetOr(General))).value)).value
      && (r.hasGaps <==> r.report.missingPerspectives.GetOr([]) != [])
      && r.themeUsed == body.value.theme.GetOr(General)
      && r.dimensionsUsed == Lookup(r.themeUsed).dimensions
  {
    if body.None? then Failed
    else
      var histories := body.value.histories.GetOr([]);
      if |histories| < 2 then GapsSkipped
      else
        var theme := body.value.theme.GetOr(General);
        match generate(GapPromptFor(histories, theme))
        case None => Failed
        case Some(text) =>
          match parse(CleanPy(text))
          case None => Failed
          case Some(analysis) => GapsReported(HasGaps(analysis), analysis, theme, Lookup(theme).dimensions)
  }

  /** `classify_topics`: fewer than three utterances are declined (status
      200, `success: False`); otherwise the cleaned reply is returned whole. */
  function ClassifyTopics(body: Option<HistoriesBody>, generate: Prompt -> Option<string>,
                          parse: string -> Option<TopicClassification>): (r: Response)
    ensures r.Classified? || r.Declined? || r.Failed?
    ensures r.Declined? <==> body.Some? && |body.value.histories.GetOr([])| < 3
    ensures r.Declined? ==> r.Status() == 200 && !r.Success() && r.message == TopicsTooFewMessage
    ensures r.Classified? <==>
      && body.Some? && |body.value.histories.GetOr([])| >= 3
      && generate(TopicPrompt(SpeechesText(ItemTranscripts(body.value.histories.GetOr([]))))).Some?
      && parse(CleanPy(generate(TopicPrompt(SpeechesText(ItemTranscripts(body.value.histories.GetOr([])))))
                .value)).Some?
    ensures r.Classified? ==>
      r.classification == parse(CleanPy(generate(TopicPrompt(SpeechesText(ItemTranscripts(body.value.histories.GetOr([])))))
                                 .value)).value
  {
    if body.None? then Failed
    else
      var histories := body.value.histories.GetOr([]);
      if |histories| < 3 then Declined(200, TopicsTooFewMessage)
      else
        match generate(TopicPrompt(SpeechesText(ItemTranscripts(histories))))
        case None => Failed
        case Some(text) =>
          match parse(CleanPy(text))
          case None => Failed
          case Some(c) => Classified(c)
  }
}
