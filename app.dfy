/** The per-utterance orchestration of the meeting analyser's frontend: the
    session state (history, write-once theme, replace-on-recompute gap analysis
    and topic classification, pending input), one submission step, the
    sanitiser that extracts the JSON object from the model's reply, theme id
    resolution and the stance colour.  Every reply of the analysis service and
    `JSON.parse` are parameters: a reply is either a thrown error or a body. */
module App {
  import opened Wrappers
  import opened Text
  import opened Wire

  /** One value of the `dimensions` object: a 0-10 score or a category label. */
  datatype DimensionValue = Score(score: int) | Category(name: string)

  /** The object `JSON.parse` makes of a cleaned per-utterance reply. */
  datatype AnalysisRecord = AnalysisRecord(
    topic: string,
    stance: string,
    dimensions: map<string, DimensionValue>,
    keyPoints: seq<string>,
    confidence: int)

  /** One committed utterance; the timestamp is the caller's clock reading. */
  datatype HistoryEntry = HistoryEntry(transcript: string, analysis: AnalysisRecord, timestamp: string)

  /** What each `fetch` ... `response.json()` yields: a thrown error or a body. */
  datatype ThemeReply = ThemeThrew | ThemeReplied(success: bool, info: ThemeInfo)
  datatype AnalyzeReply = AnalyzeThrew | AnalyzeReplied(success: bool, analysis: Option<string>)
  datatype GapReply = GapThrew | GapReplied(success: bool, hasGaps: bool, gapAnalysis: GapAnalysis)
  datatype TopicReply = TopicThrew | TopicReplied(success: bool, classification: TopicClassification)

  /** The requests a step sends, with their JSON payloads. */
  datatype Request =
    | DetectThemeRequest(histories: seq<string>)
    | AnalyzeRequest(transcript: string, theme: string)
    | GapsRequest(histories: seq<string>, theme: string)
    | TopicsRequest(histories: seq<string>)

  /** What the backend answers in full: theme detection and gap analysis
      from two utterances, topic classification from three, and a theme id
      on every request that carries one. */
  predicate MeetsThreshold(req: Request) {
    match req
    case DetectThemeRequest(hs) => |hs| >= 2
    case AnalyzeRequest(_, theme) => theme != ""
    case GapsRequest(hs, theme) => |hs| >= 2 && theme != ""
    case TopicsRequest(hs) => |hs| >= 3
  }

  /** How a submission ended: rejected as blank, failed with an alert (a thrown
      error, including a reply that does not parse), answered with
      `success: false` (silently ignored), or committed to the history. */
  datatype Outcome = EmptyInput | AnalysisFailed | NotSuccessful | Committed

  /** `history.map(h => h.transcript)`: the payload of every request. */
  function Transcripts(history: seq<HistoryEntry>): (ts: seq<string>)
    ensures |ts| == |history|
    ensures forall i :: 0 <= i < |history| ==> ts[i] == history[i].transcript
  {
    seq(|history|, i requires 0 <= i < |history| => history[i].transcript)
  }

  // ---------------------------------------------------------------------------
  // Sanitiser

  /** `.replace(/```json\s*\/g, '')` followed by `.replace(/```\s*\/g, '')`. */
  function StripFences(raw: string): (r: string)
    ensures |r| <= |raw|
    ensures !HasFence(r)
  {
    var once := RemoveMatches(raw, "```json", true);
    RemoveFencesLeavesNone(once, true);
    RemoveMatches(once, Fence, true)
  }

  /** `s.substring(from, to)`: both ends are clamped to the text and swapped
      when the first exceeds the second. */
  function Substring(s: string, from: int, to: int): (r: string)
    ensures |r| <= |s|
    ensures 0 <= from <= to <= |s| ==> r == s[from..to]
    ensures 0 <= to < from <= |s| ==> r == s[to..from]
  {
    var a := if from < 0 then 0 else if from > |s| then |s| else from;
    var b := if to < 0 then 0 else if to > |s| then |s| else to;
    if a <= b then s[a..b] else s[b..a]
  }

  /** `c.substring(c.indexOf('{'), c.lastIndexOf('}') + 1)` when both braces
      occur, the text itself otherwise. */
  function Narrow(c: string): (r: string)
    ensures '{' !in c || '}' !in c ==> r == c
  {
    var start := IndexOf(c, '{');
    var end := LastIndexOf(c, '}');
    if start != -1 && end != -1 then Substring(c, start, end + 1) else c
  }

  /** The cleaned reply: fences removed, then narrowed to the text from the
      first `{` to the last `}` when both occur. */
  function CleanJson(raw: string): (r: string)
    ensures !HasFence(r)
  {
    NarrowKeepsNoFence(StripFences(raw));
    Narrow(StripFences(raw))
  }

  /** Neither stripping pass removes a brace. */
  lemma StripFencesKeepsBraces(raw: string)
    ensures '{' in StripFences(raw) <==> '{' in raw
    ensures '}' in StripFences(raw) <==> '}' in raw
  {
    var once := RemoveMatches(raw, "```json", true);
    RemoveMatchesKeepsChar(raw, "```json", true, '{');
    RemoveMatchesKeepsChar(raw, "```json", true, '}');
    RemoveMatchesKeepsChar(once, Fence, true, '{');
    RemoveMatchesKeepsChar(once, Fence, true, '}');
  }

  /** Narrowing a fence-free text leaves it fence-free. */
  lemma NarrowKeepsNoFence(c: string)
    requires !HasFence(c)
    ensures !HasFence(Narrow(c))
  {
    var start := IndexOf(c, '{');
    var end := LastIndexOf(c, '}');
    if start != -1 && end != -1 {
      if start <= end + 1 {
        FenceFreeSlice(c, start, end + 1);
      } else {
        FenceFreeSlice(c, end + 1, start);
      }
    }
  }

  /** With a first `{` at `i` and a last `}` at `j`, narrowing keeps the text
      between them: the inclusive span when `i <= j`, and when `substring`
      swaps its bounds, the text strictly between the `}` and the `{`. */
  lemma NarrowBetween(c: string, i: nat, j: nat)
    requires i < |c| && j < |c|
    requires c[i] == '{' && '{' !in c[..i]
    requires c[j] == '}' && '}' !in c[j + 1..]
    ensures i <= j ==> Narrow(c) == c[i..j + 1]
    ensures j < i ==> Narrow(c) == c[j + 1..i]
  {
    IndexOfIs(c, '{', i);
    LastIndexOfIs(c, '}', j);
    assert Narrow(c) == Substring(c, i, j + 1);
  }

  /** With a first `{` at `i` and a last `}` at `j >= i` in the fence-free
      text, the cleaned reply is exactly the inclusive span between them. */
  lemma CleanJsonSpan(raw: string, i: nat, j: nat)
    requires i <= j < |StripFences(raw)|
    requires StripFences(raw)[i] == '{' && '{' !in StripFences(raw)[..i]
    requires StripFences(raw)[j] == '}' && '}' !in StripFences(raw)[j + 1..]
    ensures CleanJson(raw) == StripFences(raw)[i..j + 1]
  {
    NarrowBetween(StripFences(raw), i, j);
  }

  /** When the last `}` comes before the first `{`, `substring` swaps its
      arguments: the cleaned reply is the text strictly between them. */
  lemma CleanJsonInverted(raw: string, i: nat, j: nat)
    requires j < i < |StripFences(raw)|
    requires StripFences(raw)[i] == '{' && '{' !in StripFences(raw)[..i]
    requires StripFences(raw)[j] == '}' && '}' !in StripFences(raw)[j + 1..]
    ensures CleanJson(raw) == StripFences(raw)[j + 1..i]
  {
    NarrowBetween(StripFences(raw), i, j);
  }

  /** A reply lacking either brace is only stripped of its fences. */
  lemma CleanJsonWithoutBraces(raw: string)
    requires '{' !in raw || '}' !in raw
    ensures CleanJson(raw) == StripFences(raw)
  {
    StripFencesKeepsBraces(raw);
  }

  // ---------------------------------------------------------------------------
  // Theme ids and stance colour

  /** `t?.theme`, with the empty id standing for every falsy value. */
  function ThemeId(t: Option<ThemeInfo>): string {
    if t.Some? then t.value.theme else ""
  }

  /** JavaScript's `a || b` on ids: the first unless it is empty. */
  function Or(a: string, b: string): string {
    if a != "" then a else b
  }

  /** `detectedTheme?.theme || theme?.theme || 'general'`: the theme an
      utterance is analysed under. */
  function UtteranceThemeId(detected: Option<ThemeInfo>, stored: Option<ThemeInfo>): (id: string)
    ensures id != ""
  {
    Or(ThemeId(detected), Or(ThemeId(stored), "general"))
  }

  /** `detectedTheme?.theme || theme?.theme`: the theme gap analysis runs
      under, with no default. */
  function GapThemeId(detected: Option<ThemeInfo>, stored: Option<ThemeInfo>): (id: string)
    ensures id == "" <==> ThemeId(detected) == "" && ThemeId(stored) == ""
  {
    Or(ThemeId(detected), ThemeId(stored))
  }

  /** The two resolutions agree whenever a theme is known; otherwise the
      utterance falls back to `general` and gap analysis has no theme. */
  lemma ThemeResolutionsAgree(detected: Option<ThemeInfo>, stored: Option<ThemeInfo>)
    ensures GapThemeId(detected, stored) != "" ==>
      UtteranceThemeId(detected, stored) == GapThemeId(detected, stored)
    ensures GapThemeId(detected, stored) == "" ==> UtteranceThemeId(detected, stored) == "general"
  {
  }

  const Agree: string := "賛成"
  const Disagree: string := "反対"
  const AgreeColor: string := "#4CAF50"
  const DisagreeColor: string := "#F44336"
  const OtherColor: string := "#FF9800"

  /** `getStanceColor`: green when the stance mentions agreement, otherwise
      red when it mentions disagreement, otherwise orange. */
  function StanceColor(stance: string): (color: string)
    ensures color == AgreeColor <==> Contains(stance, Agree)
    ensures color == DisagreeColor <==> !Contains(stance, Agree) && Contains(stance, Disagree)
    ensures color == OtherColor <==> !Contains(stance, Agree) && !Contains(stance, Disagree)
  {
    if Contains(stance, Agree) then AgreeColor
    else if Contains(stance, Disagree) then DisagreeColor
    else OtherColor
  }

  /** The five stance labels: both agreeing ones are green, both disagreeing
      ones red and the neutral one orange. */
  lemma StanceColorsOfLabels()
    ensures StanceColor("賛成") == AgreeColor
    ensures StanceColor("条件付き賛成") == AgreeColor
    ensures StanceColor("反対") == DisagreeColor
    ensures StanceColor("条件付き反対") == DisagreeColor
    ensures StanceColor("中立") == OtherColor
  {
    assert OccursAt("賛成", Agree, 0);
    assert OccursAt("条件付き賛成", Agree, 4);
    assert OccursAt("反対", Disagree, 0);
    assert OccursAt("条件付き反対", Disagree, 4);
    LacksLeadingChar("条件付き反対", Agree);
    LacksLeadingChar("中立", Agree);
    LacksLeadingChar("中立", Disagree);
  }

  /** A text without the first character of `t` does not contain `t`. */
  lemma LacksLeadingChar(s: string, t: string)
    requires |t| > 0 && t[0] !in s
    ensures !Contains(s, t)
  {
    forall i | 0 <= i <= |s| - |t|
      ensures !OccursAt(s, t, i)
    {
      assert s[i..i + |t|][0] == s[i];
    }
  }

  // ---------------------------------------------------------------------------
  // The session

  /** Whether the step asks for a theme: the provisional history (old history
      plus the new text) has at least two entries and no theme is stored. */
  predicate DetectionDue(history: seq<HistoryEntry>, theme: Option<ThemeInfo>) {
    |history| + 1 >= 2 && theme.None?
  }

  /** The gap state a gap-analysis reply leaves behind. */
  function GapsAfter(previous: Option<GapAnalysis>, reply: GapReply): Option<GapAnalysis> {
    match reply
    case GapThrew => previous
    case GapReplied(success, hasGaps, a) => if success && hasGaps then Some(a) else None
  }

  /** The classification a topic-classification reply leaves behind. */
  function TopicsAfter(reply: TopicReply): Option<TopicClassification> {
    match reply
    case TopicThrew => None
    case TopicReplied(success, c) => if success then Some(c) else None
  }

  /** The parsed record a reply commits, if any. */
  function Parsed(reply: AnalyzeReply, parseJson: string -> Option<AnalysisRecord>): Option<AnalysisRecord> {
    if reply.AnalyzeReplied? && reply.success && reply.analysis.Some? then parseJson(CleanJson(reply.analysis.value))
    else None
  }

  class Session {
    var transcript: string
    var analysis: Option<AnalysisRecord>
    var history: seq<HistoryEntry>
    var gaps: Option<GapAnalysis>
    var theme: Option<ThemeInfo>
    var isAnalyzing: bool
    var topicClassification: Option<TopicClassification>

    /** Only non-blank utterances are ever committed. */
    ghost predicate Valid()
      reads this`history
    {
      forall i :: 0 <= i < |history| ==> !Blank(history[i].transcript)
    }

    constructor ()
      ensures Valid()
      ensures transcript == "" && analysis == None && history == [] && gaps == None
      ensures theme == None && !isAnalyzing && topicClassification == None
    {
      transcript := "";
      analysis := None;
      history := [];
      gaps := None;
      theme := None;
      isAnalyzing := false;
      topicClassification := None;
    }

    /** `detectTheme`: asks for a theme only while none is stored and the
        history has two entries; stores and returns it on success. */
    method DetectTheme(histories: seq<string>, reply: ThemeReply)
      returns (detected: Option<ThemeInfo>, sent: seq<Request>)
      modifies this`theme
      ensures var asked := |histories| >= 2 && old(theme).None?;
        && sent == (if asked then [DetectThemeRequest(histories)] else [])
        && detected == (if asked && reply.ThemeReplied? && reply.success then Some(reply.info) else None)
        && theme == (if detected.Some? then detected else old(theme))
    {
      detected, sent := None, [];
      if |histories| >= 2 && theme.None? {
        sent := [DetectThemeRequest(histories)];
        match reply
        case ThemeThrew =>
        case ThemeReplied(success, info) =>
          if success {
            theme := Some(info);
            detected := Some(info);
          }
      }
    }

    /** `analyzeGaps`: clears the gaps below two entries; otherwise sends every
        transcript, sets the gaps only on a successful reply that reports gaps,
        clears them on any other reply and keeps them on a thrown error. */
    method AnalyzeGaps(current: seq<HistoryEntry>, themeId: string, reply: GapReply)
      returns (sent: seq<Request>)
      modifies this`gaps
      ensures |current| < 2 ==> sent == [] && gaps == None
      ensures |current| >= 2 ==>
        && sent == [GapsRequest(Transcripts(current), Or(themeId, Or(ThemeId(theme), "general")))]
        && gaps == GapsAfter(old(gaps), reply)
    {
      if |current| < 2 {
        gaps := None;
        return [];
      }
      var themeToUse := Or(themeId, Or(ThemeId(theme), "general"));
      sent := [GapsRequest(Transcripts(current), themeToUse)];
      match reply
      case GapThrew =>
      case GapReplied(success, hasGaps, a) =>
        if success && hasGaps {
          gaps := Some(a);
        } else {
          gaps := None;
        }
    }

    /** `classifyTopics`: clears the classification without a request below
        three entries; otherwise sends every transcript and keeps the
        classification of a successful reply, clearing it on anything else. */
    method ClassifyTopics(current: seq<HistoryEntry>, reply: TopicReply)
      returns (sent: seq<Request>)
      modifies this`topicClassification
      ensures |current| < 3 ==> sent == [] && topicClassification == None
      ensures |current| >= 3 ==>
        sent == [TopicsRequest(Transcripts(current))] && topicClassification == TopicsAfter(reply)
    {
      if |current| < 3 {
        topicClassification := None;
        return [];
      }
      sent := [TopicsRequest(Transcripts(current))];
      match reply
      case TopicThrew =>
        topicClassification := None;
      case TopicReplied(success, c) =>
        if success {
          topicClassification := Some(c);
        } else {
          topicClassification := None;
        }
    }

    /** The committed branch of a submission: appends the entry, then runs
        gap analysis (when a gap theme exists and the history has two
        entries) and topic classification, then clears the input. */
    method Commit(entry: HistoryEntry, themeForGaps: string, gapReply: GapReply, topicReply: TopicReply)
      returns (sent: seq<Request>)
      requires Valid() && !Blank(entry.transcript)
      modifies this`history, this`analysis, this`gaps, this`topicClassification, this`transcript
      ensures Valid()
      ensures forall r :: r in sent ==> MeetsThreshold(r)
      ensures history == old(history) + [entry]
      ensures analysis == Some(entry.analysis) && transcript == ""
      ensures themeForGaps != "" && |history| >= 2 ==>
        gaps == GapsAfter(old(gaps), gapReply)
      ensures !(themeForGaps != "" && |history| >= 2) ==> gaps == old(gaps)
      ensures topicClassification == (if |history| >= 3 then TopicsAfter(topicReply) else None)
      ensures sent ==
        (if themeForGaps != "" && |history| >= 2
         then [GapsRequest(Transcripts(history), themeForGaps)] else [])
        + (if |history| >= 3 then [TopicsRequest(Transcripts(history))] else [])
    {
      analysis := Some(entry.analysis);
      var newHistory := history + [entry];
      history := newHistory;
      sent := [];
      if themeForGaps != "" && |newHistory| >= 2 {
        sent := AnalyzeGaps(newHistory, themeForGaps, gapReply);
      }
      var topicSent := ClassifyTopics(newHistory, topicReply);
      sent := sent + topicSent;
      transcript := "";
    }

    /** The handling of the analysis reply: a thrown error, a missing
        analysis or a reply that does not parse fails the submission, a reply
        with `success: false` is ignored, and a parsed reply is committed. */
    method HandleReply(
      text: string,
      reply: AnalyzeReply,
      parseJson: string -> Option<AnalysisRecord>,
      timestamp: string,
      themeForGaps: string,
      gapReply: GapReply,
      topicReply: TopicReply)
      returns (outcome: Outcome, sent: seq<Request>)
      requires Valid() && !Blank(text)
      modifies this`history, this`analysis, this`gaps, this`topicClassification, this`transcript
      ensures Valid()
      ensures outcome != EmptyInput
      ensures forall r :: r in sent ==> MeetsThreshold(r)
      ensures outcome == Committed <==> Parsed(reply, parseJson).Some?
      ensures outcome == NotSuccessful <==> reply.AnalyzeReplied? && !reply.success
      ensures outcome == AnalysisFailed <==>
        !(reply.AnalyzeReplied? && !reply.success) && Parsed(reply, parseJson).None?
      ensures outcome == Committed ==>
        && history == old(history) + [HistoryEntry(text, Parsed(reply, parseJson).value, timestamp)]
        && analysis == Parsed(reply, parseJson)
        && transcript == ""
        && gaps == (if themeForGaps != "" && |history| >= 2 then GapsAfter(old(gaps), gapReply) else old(gaps))
        && topicClassification == (if |history| >= 3 then TopicsAfter(topicReply) else None)
        && sent ==
          (if themeForGaps != "" && |history| >= 2
           then [GapsRequest(Transcripts(history), themeForGaps)] else [])
          + (if |history| >= 3 then [TopicsRequest(Transcripts(history))] else [])
      ensures outcome != Committed ==>
        && sent == []
        && history == old(history) && analysis == old(analysis) && transcript == old(transcript)
        && gaps == old(gaps) && topicClassification == old(topicClassification)
    {
      outcome, sent := AnalysisFailed, [];
      match reply {
        case AnalyzeThrew =>
        case AnalyzeReplied(success, raw) =>
          if !success {
            outcome := NotSuccessful;
          } else if raw.Some? {
            var cleanJson := CleanJson(raw.value);
            var parsed := parseJson(cleanJson);
            if parsed.Some? {
              sent := Commit(HistoryEntry(text, parsed.value, timestamp), themeForGaps, gapReply, topicReply);
              outcome := Committed;
            }
          }
      }
    }

    /** The start of a submission: detects the theme when due, then resolves
        the id the utterance is analysed under (detected, else stored, else
        `general`) and the one gap analysis runs under (no default). */
    method ResolveTheme(text: string, themeReply: ThemeReply)
      returns (currentTheme: string, themeForGaps: string, sent: seq<Request>)
      modifies this`theme
      ensures theme == (if DetectionDue(history, old(theme)) && themeReply.ThemeReplied? && themeReply.success
                        then Some(themeReply.info) else old(theme))
      ensures sent == (if DetectionDue(history, old(theme))
                       then [DetectThemeRequest(Transcripts(history) + [text])] else [])
      ensures forall r :: r in sent ==> MeetsThreshold(r)
      ensures currentTheme == Or(ThemeId(theme), "general")
      ensures themeForGaps == ThemeId(theme)
    {
      var provisional := Transcripts(history) + [text];
      var closureTheme := theme;
      var detected: Option<ThemeInfo> := None;
      sent := [];
      if |provisional| >= 2 && theme.None? {
        detected, sent := DetectTheme(provisional, themeReply);
      }
      currentTheme := UtteranceThemeId(detected, closureTheme);
      themeForGaps := GapThemeId(detected, closureTheme);
    }

    /** One submission of `text` (`analyzeText` on the pending input,
        `analyzeTextWithTranscript` on recognised speech).  The replies the
        service would give and `JSON.parse` are parameters. */
    method Submit(
      text: string,
      themeReply: ThemeReply,
      reply: AnalyzeReply,
      parseJson: string -> Option<AnalysisRecord>,
      timestamp: string,
      gapReply: GapReply,
      topicReply: TopicReply)
      returns (outcome: Outcome, sent: seq<Request>)
      requires Valid()
      modifies this
      ensures Valid()
      // Blank input changes nothing and sends nothing.
      ensures Blank(text) ==> outcome == EmptyInput && sent == []
      ensures Blank(text) ==>
        (&& history == old(history) && theme == old(theme) && gaps == old(gaps)
         && topicClassification == old(topicClassification) && transcript == old(transcript)
         && analysis == old(analysis) && isAnalyzing == old(isAnalyzing))
      ensures !Blank(text) ==> !isAnalyzing
      // The theme is written at most once, by a successful detection.
      ensures old(theme).Some? ==> theme == old(theme)
      ensures theme == (if !Blank(text) && DetectionDue(old(history), old(theme))
                           && themeReply.ThemeReplied? && themeReply.success
                        then Some(themeReply.info) else old(theme))
      // The requests, in order, with their payloads.
      ensures !Blank(text) ==>
        (sent ==
          (if DetectionDue(old(history), old(theme))
           then [DetectThemeRequest(Transcripts(old(history)) + [text])] else [])
          + [AnalyzeRequest(text, Or(ThemeId(theme), "general"))]
          + (if outcome == Committed && ThemeId(theme) != "" && |history| >= 2
             then [GapsRequest(Transcripts(history), ThemeId(theme))] else [])
          + (if outcome == Committed && |history| >= 3
             then [TopicsRequest(Transcripts(history))] else []))
      // Nothing is sent that the backend would turn away as too short.
      ensures forall r :: r in sent ==> MeetsThreshold(r)
      // Exactly one entry is appended, and only on a parsed successful reply.
      ensures outcome == Committed <==> !Blank(text) && Parsed(reply, parseJson).Some?
      ensures outcome == NotSuccessful <==> !Blank(text) && reply.AnalyzeReplied? && !reply.success
      // Blank input and a failed analysis are told apart.
      ensures outcome == EmptyInput <==> Blank(text)
      ensures outcome == AnalysisFailed <==>
        !Blank(text) && !(reply.AnalyzeReplied? && !reply.success) && Parsed(reply, parseJson).None?
      ensures outcome == Committed ==>
        && history == old(history) + [HistoryEntry(text, Parsed(reply, parseJson).value, timestamp)]
        && analysis == Parsed(reply, parseJson)
        && transcript == ""
        && gaps == (if ThemeId(theme) != "" && |history| >= 2 then GapsAfter(old(gaps), gapReply) else old(gaps))
        && topicClassification == (if |history| >= 3 then TopicsAfter(topicReply) else None)
      ensures outcome != Committed ==>
        && history == old(history) && analysis == old(analysis) && transcript == old(transcript)
        && gaps == old(gaps) && topicClassification == old(topicClassification)
    {
      if Blank(text) {
        return EmptyInput, [];
      }
      isAnalyzing := true;
      var currentTheme, themeForGaps, detectSent := ResolveTheme(text, themeReply);
      ghost var resolved := theme;
      var later;
      outcome, later := HandleReply(text, reply, parseJson, timestamp, themeForGaps, gapReply, topicReply);
      assert theme == resolved;
      assert currentTheme == Or(ThemeId(theme), "general") && themeForGaps == ThemeId(theme);
      sent := detectSent + [AnalyzeRequest(text, currentTheme)] + later;
      isAnalyzing := false;
    }
  }
}
