# Meeting Mind: analysis bookkeeping, modelled in Dafny

Meeting Mind transcribes what is said in a meeting and has a language model analyse each utterance. The analysis covers:

- the utterance's topic;
- its stance: 賛成, 反対, 中立, 条件付き賛成 or 条件付き反対;
- scores on five viewpoints chosen by the meeting's theme.

It also detects the theme, reports viewpoints the discussion is missing (a "gap analysis") and groups the utterances into topics. A mind map shows the result.

This project models the bookkeeping around the language model. It has three parts.

- **The frontend's submission step** (`App`, `frontend/src/App.js`). A `Session` class holds:
  - the history of analysed utterances;
  - the write-once theme;
  - the gap analysis and the topic classification, each replaced whenever it is recomputed;
  - the pending input.

  `Session.Submit` is one submission. It rejects blank input. While no theme is stored, it asks for one on every submission from the second utterance on, and a detected theme is kept for good. It resolves the theme id (detected, else stored, else `general`). It cleans the reply and appends exactly one entry on success. Then it decides whether the gap analysis and the topic classification run. Its postcondition gives every request the step sends and the whole new state. The JavaScript sanitizer is a function:
  - `/```json\s*/g` and then `/```\s*/g` are removed;
  - the text is narrowed from the first `{` to the last `}`;
  - when the last `}` comes first, `substring` swaps its arguments.
- **The backend's request shaping** (`Backend`, `backend/main.py`):
  - the viewpoint table with its `general` fallback;
  - the rows of the dimension descriptions, where the last key is a category iff `time_horizon` or `potential` is among the keys;
  - the numbered utterance listings;
  - the Python sanitizer, whose slice is empty when the braces are inverted;
  - the four endpoints' early returns (theme under 1 utterance, gaps under 2, topics under 3) and derived fields (`has_gaps`, the theme reply assembled from the table with defaults).
- **The mind-map tree** (`MindMap`, `frontend/src/MindMap.jsx`):
  - `GroupByStance` fills the five stance groups in one loop over the history;
  - the stance view lists the non-empty groups in fixed order;
  - the topic view drops indices outside the history;
  - labels are cut at 30, 10 and 8 characters;
  - the tooltip is placed after the pointer on each axis, moved before it when it would overflow, and kept at least 10 px from the left and top edges;
  - the drawing height is at least 600 px.

Shared modules:

- `Text` holds the string primitives:
  - JavaScript's `\s` class;
  - global literal removal with or without trailing whitespace;
  - `indexOf` and `lastIndexOf`;
  - `join` and `split`;
  - decimal numerals.
- `Wire` holds the JSON objects both sides exchange.
- `Agreement` relates the two sides. Requests the frontend sends are never turned away as too short. The two sanitizers agree on replies without backquotes whose braces are in order. They disagree when the last `}` comes before the first `{` with text between them.

External behaviour becomes parameters:

- Every network reply is a parameter: a thrown error or a body.
- So are the language model (`generate`) and `JSON.parse`/`json.loads` (`parse`). `None` stands for the exception they raise.
- The timestamp is a string parameter.

## Model

| member | source | states |
|---|---|---|
| App.Session.constructor | frontend/src/App.js:6-15 | The session starts with empty input and history, no analysis, gaps, theme or classification, and not analysing. |
| App.Session.Submit | frontend/src/App.js:83-168 | Submitting `text` works as follows. Blank text changes nothing and sends nothing. A theme is detected only when the provisional history has at least two entries and none is stored, and a stored theme is never replaced. The requests sent are exactly: the detection request, the analysis under the resolved id, then the gap and topic requests. Exactly one entry is appended, and only when the cleaned reply parses. On `success: false` or an error, history, input, gaps and classification are unchanged. `isAnalyzing` ends false. No request falls below the backend's thresholds. |
| App.Session.ResolveTheme | frontend/src/App.js:92-105 | The theme is detected only when due. The utterance's id is the detected id, else the stored one, else `general`. The gap id is the detected id, else the stored one, with no default. |
| App.Session.DetectTheme | frontend/src/App.js:333-359 | It asks only with at least two utterances and no stored theme. It stores and returns the theme only on `success`. A failed or thrown reply returns nothing and keeps the theme. |
| App.Session.HandleReply | frontend/src/App.js:119-167 | Commit happens iff the reply succeeded and its cleaned analysis parses. `success: false` is its own outcome. Any other result leaves history, input, gaps and classification unchanged and sends nothing more. |
| App.Session.Commit | frontend/src/App.js:139-159 | The history is the old one plus the one entry, and the input is cleared. Gap analysis runs only with a gap theme and at least two entries; otherwise the gaps are untouched. Topic classification always runs. |
| App.Session.AnalyzeGaps | frontend/src/App.js:255-296 | Under two entries it clears the gaps without a request. Otherwise it sends every transcript in order under `themeId`, else the stored id, else `general`. It sets the gaps only on a successful reply reporting gaps, clears them on any other reply, and keeps them on a thrown error. |
| App.Session.ClassifyTopics | frontend/src/App.js:298-331 | Under three entries it clears the classification without a request. Otherwise it sends every transcript in order, keeps the classification of a successful reply and clears it on failure or a thrown error. |
| App.UtteranceThemeId | frontend/src/App.js:104 | `detected \|\| stored \|\| 'general'` is never empty. |
| App.GapThemeId | frontend/src/App.js:149 | `detected \|\| stored` is empty iff both ids are empty. |
| App.ThemeResolutionsAgree | frontend/src/App.js:104-149 | When a theme id is known, the utterance and the gap analysis use the same id. When none is known, the utterance falls back to `general` and gap analysis has no theme. |
| App.StripFencesKeepsBraces | frontend/src/App.js:125-126 | A `{` (or `}`) occurs after the fences are removed iff it occurred before. |
| App.NarrowKeepsNoFence | frontend/src/App.js:128-133 | Narrowing a fence-free text to its braces keeps it fence-free. |
| App.StripFences | frontend/src/App.js:125-126 | The stripped reply is no longer than the raw one and holds no three backquotes in a row. |
| App.Substring | frontend/src/App.js:132 | With both bounds inside the text, `substring` gives the text between them, whichever bound comes first. |
| App.Narrow | frontend/src/App.js:128-133 | A text lacking either brace is kept as it is. |
| App.CleanJson | frontend/src/App.js:124-133 | The cleaned reply never contains three backquotes in a row. |
| App.NarrowBetween | frontend/src/App.js:128-133 | With the first `{` at i and the last `}` at j, narrowing gives `c[i..j+1]` when i ≤ j and `c[j+1..i]` when j < i. |
| App.CleanJsonSpan | frontend/src/App.js:124-133 | When the first `{` precedes the last `}`, the cleaned reply is exactly the inclusive span between them. |
| App.CleanJsonInverted | frontend/src/App.js:132 | When the last `}` precedes the first `{`, `substring` swaps its bounds and the cleaned reply is the text between them. |
| App.CleanJsonWithoutBraces | frontend/src/App.js:131 | A reply lacking either brace is returned fence-stripped and otherwise unchanged. |
| App.StanceColor | frontend/src/App.js:361-365 | Green iff the stance contains 賛成. Red iff it lacks 賛成 but contains 反対. Orange otherwise. |
| App.StanceColorsOfLabels | frontend/src/App.js:361-365 | 賛成 and 条件付き賛成 are green, 反対 and 条件付き反対 red, 中立 orange. |
| App.Transcripts | frontend/src/App.js:279 | The payload lists the history's transcripts, one per entry, in order. |
| Text.RemoveFencesLeavesNone | frontend/src/App.js:126 | After every fence marker is removed, none is left, with or without the trailing whitespace. |
| Text.RemoveMatchesKeepsChar | frontend/src/App.js:125-126 | Removal deletes only the literal's characters and whitespace. Any other character is present afterwards iff it was before. |
| Text.RemoveMatches | frontend/src/App.js:125-126 | A global removal never lengthens the text. What it keeps and drops is stated by RemoveMatchesKeepsChar and RemoveFencesLeavesNone. |
| Text.IndexOf | frontend/src/App.js:128 | The first position of the character, or -1 exactly when it is absent. |
| Text.LastIndexOf | frontend/src/App.js:129 | The last position of the character, or -1 exactly when it is absent. |
| Text.SkipSpace | frontend/src/App.js:125 | The greedy `\s*` drops a whitespace prefix, and what remains does not start with whitespace. |
| Text.SplitJoin | backend/main.py:285-288 | Splitting a newline-joined listing gives its pieces back when no piece holds a newline. |
| Text.DecimalRoundTrip | backend/main.py:286 | The numeral of `n` reads back as `n`. |
| Text.DecimalInjective | backend/main.py:286 | Different line numbers get different numerals, so a numbered listing is unambiguous. |
| Backend.TableWellFormed | backend/main.py:8-75 | The table holds exactly the five themes and `general`, each with five distinct viewpoint keys. |
| Backend.Lookup | backend/main.py:104 | A known id gets its entry and any other id the `general` entry. Every answer has five distinct keys. |
| Backend.Keys | backend/main.py:114 | The key list has one key per viewpoint, in table order. |
| Backend.DescriptionRows | backend/main.py:115-116 | Every key but the last has the row `"k": 0-10,`. The last key has the category row iff `time_horizon` or `potential` is among the keys, and `0-10` otherwise. |
| Backend.DescriptionLines | backend/main.py:114-116 | With two or more newline-free keys, the descriptions are exactly those rows, one line per key. |
| Backend.DimensionDescriptions | backend/main.py:115-116 | The score rows of all keys but the last, then a newline and the last key's row. DescriptionLines proves it is one line per key. |
| Backend.CategoricalThemes | backend/main.py:8-75 | Only equipment investment and HR evaluation render their last viewpoint as a category. Every other id, the fallback included, scores it 0-10. |
| Backend.HistoryLines | backend/main.py:285-288 | Line i of the gap listing is `発言{i+1}: ` and the i-th transcript. |
| Backend.SpeechLines | backend/main.py:382-385 | Line i of the topic listing is `{i+1}. ` and the i-th transcript. |
| Backend.HistoryLineReadsBack | backend/main.py:286 | A gap-listing line reads back as `発言`, then the number i+1, then `: ` and the transcript. |
| Backend.SpeechLineReadsBack | backend/main.py:383 | A topic-listing line reads back as the number i+1, then `. ` and the transcript. |
| Backend.HistoryNumberedInOrder | backend/main.py:285-288 | For newline-free transcripts, the gap listing splits into exactly its numbered lines, in input order. |
| Backend.SpeechesNumberedInOrder | backend/main.py:382-385 | For newline-free transcripts, the topic listing splits into exactly its numbered lines, in input order. |
| Backend.HistoryText | backend/main.py:285-288 | The gap listing: the numbered history lines joined by newlines. HistoryNumberedInOrder proves it splits back into them. |
| Backend.SpeechesText | backend/main.py:382-385 | The topic listing: the numbered speech lines joined by newlines. SpeechesNumberedInOrder proves it splits back into them. |
| Backend.CoverageAsksForEveryKey | backend/main.py:297-298 | The coverage skeleton contains a `"key": 0-10の数値` row for every viewpoint. |
| Backend.CoverageFormat | backend/main.py:297-298 | The coverage skeleton: one row per viewpoint, joined by `,` and a newline. CoverageAsksForEveryKey proves every row is present. |
| Backend.DimensionList | backend/main.py:294-295 | The viewpoint list: one numbered `key (label)` line per viewpoint. DimensionListNamesEveryKey proves every line is present. |
| Backend.DimensionListNamesEveryKey | backend/main.py:294-295 | The viewpoint list contains `{k+1}. key (label)` for the k-th viewpoint, for every k. |
| Backend.GapPromptFor | backend/main.py:278-298 | The gap prompt is built from the posted theme's fallback entry: its name, the numbered listing of the posted transcripts, the viewpoint list and the coverage skeleton. |
| Backend.StripFencesPyKeepsBraces | backend/main.py:225 | A `{` (or `}`) occurs after the two literal removals iff it occurred before. |
| Backend.StripFencesPy | backend/main.py:225 | The stripped reply is no longer than the raw one and holds no three backquotes in a row. |
| Backend.NarrowPy | backend/main.py:226-229 | A text lacking either brace is kept as it is. |
| Backend.NarrowPyKeepsNoFence | backend/main.py:226-229 | Slicing a fence-free text keeps it fence-free. |
| Backend.CleanPy | backend/main.py:224-229 | The cleaned reply never contains three backquotes in a row. |
| Backend.NarrowPyBetween | backend/main.py:226-229 | With the first `{` at i and the last `}` at j, the slice is `c[i..j+1]` when i ≤ j and empty when j < i. |
| Backend.CleanPySpan | backend/main.py:224-229 | When the first `{` precedes the last `}`, the cleaned reply is the inclusive span. |
| Backend.CleanPyInverted | backend/main.py:229 | When the last `}` precedes the first `{`, the cleaned reply is empty. |
| Backend.CleanPyWithoutBraces | backend/main.py:228 | A reply lacking either brace is only fence-stripped. |
| Backend.ItemTranscripts | backend/main.py:180 | `h.get('transcript', '')` is taken for every element, in order. A missing field gives the empty text. |
| Backend.AnalysisPromptFor | backend/main.py:104-116 | The analysis prompt is built from the theme's fallback entry: its name, viewpoints and the description rows of its keys. |
| Backend.Analyze | backend/main.py:90-162 | The theme defaults to `equipment_investment` only when absent. It succeeds iff the body is an object and the model answers. Then the reply carries the model's text unchanged, echoes the id as posted and gives the viewpoints of its fallback entry (five of them). |
| Backend.ThemeFromGuess | backend/main.py:232-245 | The id is as guessed, defaulting to `general`. Name, viewpoints and description come from the id's fallback entry. Confidence defaults to 5 and reason to the empty text. |
| Backend.ThemeSample | backend/main.py:179-181 | The model sees the first transcript, or the first two joined by a newline. A missing `transcript` field counts as the empty text. |
| Backend.DetectTheme | backend/main.py:164-254 | It declines with status 400 iff there is no utterance. It succeeds iff the model answers and the cleaned answer parses, and then the reply is the guess completed from the table. |
| Backend.DetectThemeUsesFirstTwo | backend/main.py:179-181 | Histories agreeing on their first two transcripts get the same detection result. |
| Backend.HasGaps | backend/main.py:347 | `has_gaps` holds iff `missing_perspectives` is present and non-empty. |
| Backend.AnalyzeGaps | backend/main.py:256-364 | Under two utterances it returns `success` with no gaps and makes no model call. Otherwise it reports iff the model answers and the cleaned answer parses. The report is that parsed answer, and `has_gaps` holds iff its `missing_perspectives` is non-empty. The reply echoes the posted theme, defaulting to `general`, and its viewpoints. |
| Backend.ClassifyTopics | backend/main.py:366-454 | Under three utterances it declines with `success: False` and status 200. It succeeds iff the model answers and the cleaned answer parses, and then the classification is that parsed answer. |
| MindMap.Rank | frontend/src/MindMap.jsx:37-47 | A stance has a group iff it is one of the five labels, and its group is the one of that label. |
| MindMap.Bucket | frontend/src/MindMap.jsx:45-55 | One stance's group: the nodes of the entries with that stance, in history order. BucketSound, BucketComplete and BucketOrdered state this. |
| MindMap.GroupByStance | frontend/src/MindMap.jsx:37-55 | The loop leaves each of the five groups equal to that stance's bucket of the history. |
| MindMap.BucketSound | frontend/src/MindMap.jsx:45-55 | Every node of a group is the node of a history entry with that stance, at its index. |
| MindMap.BucketComplete | frontend/src/MindMap.jsx:45-55 | Every entry with the stance is in its group. |
| MindMap.BucketOrdered | frontend/src/MindMap.jsx:45-55 | A group lists its entries in strictly increasing history order. |
| MindMap.StanceBranches | frontend/src/MindMap.jsx:57-71 | Each branch is a non-empty group's stance with that group's leaves, and branches follow the fixed stance order. |
| MindMap.StanceBranchesComplete | frontend/src/MindMap.jsx:59-60 | Every non-empty group has its branch. |
| MindMap.StanceTree | frontend/src/MindMap.jsx:57-71 | The stance view: the root with the branches of the non-empty groups. StanceTreeLeaves and StanceTreeHasEntry state what it holds. |
| MindMap.StanceTreeLeaves | frontend/src/MindMap.jsx:57-71 | Every leaf of the stance view is the leaf of an entry whose stance is its branch's, and that stance is one of the five. |
| MindMap.StanceTreeHasEntry | frontend/src/MindMap.jsx:45-71 | Every entry with one of the five stances appears as a leaf under its stance's branch. |
| MindMap.InRange | frontend/src/MindMap.jsx:23-32 | Only indices naming an entry are kept, and every listed index that names one is kept. |
| MindMap.InRangeAppend | frontend/src/MindMap.jsx:23-32 | Filtering a concatenation is concatenating the filtered parts, so kept indices stay in list order, each as often as listed. |
| MindMap.InRangeSingle | frontend/src/MindMap.jsx:24-25 | A single index is kept iff it names an entry. |
| MindMap.InRangeKeepsValid | frontend/src/MindMap.jsx:23-32 | Indices that all name entries are kept as listed, in order. |
| MindMap.TopicLeavesFromHistory | frontend/src/MindMap.jsx:23-32 | Every leaf of a topic is the leaf of a history entry that the topic lists. |
| MindMap.TopicLeaves | frontend/src/MindMap.jsx:23-32 | A topic has at most one leaf per listed index. TopicLeavesFromHistory states where each leaf comes from. |
| MindMap.LeafOf | frontend/src/MindMap.jsx:26-31 | A leaf carries the transcript cut at 30 characters as its name, the full transcript, and the entry's topic and stance. |
| MindMap.TopicTree | frontend/src/MindMap.jsx:18-34 | There is one branch per topic, in the classification's order, carrying the topic's name, description and leaves. |
| MindMap.BuildTree | frontend/src/MindMap.jsx:9-72 | An empty history gives no tree. The topic view is used iff it is selected and the classification has `topics`; otherwise the stance view is used. |
| MindMap.Truncate | frontend/src/MindMap.jsx:27 | A text of at most n characters is kept. A longer one becomes its first n characters plus `...`. |
| MindMap.LeafLabelOfTranscript | frontend/src/MindMap.jsx:204 | Cutting a leaf name (cut at 30) again at 8 is cutting the transcript at 8. |
| MindMap.TruncateIsPrefix | frontend/src/MindMap.jsx:181 | A label is at most n+3 long, and its first n characters are the text's. |
| MindMap.BranchLabel | frontend/src/MindMap.jsx:181 | A branch shows its name cut at 10 characters. |
| MindMap.StanceLabelsShownWhole | frontend/src/MindMap.jsx:181 | Every stance label is short enough to be shown uncut. |
| MindMap.Place | frontend/src/MindMap.jsx:268-289 | Along one axis the box is at least 10 from the edge. If it fits, it starts 10 px after the pointer (clamped to 10). If it overflows the window less 20, it is moved 10 px before the pointer (clamped to 10). |
| MindMap.PlaceKeepsClear | frontend/src/MindMap.jsx:268-289 | For a non-negative pointer, a box that fits stays within the window less 20. A moved box not pushed against the edge ends 10 px before the pointer. Every box is at the edge or 10 px clear of the pointer. |
| MindMap.TooltipPosition | frontend/src/MindMap.jsx:257-294 | Left is `Place` on the x axis with the width and top is `Place` on the y axis with the height, defaulting to 300 by 100. Both are at least 10. For a non-negative pointer, a tooltip that fits sits 10 px right of and below the pointer. Unless it is clamped, it stays 10 px clear of the pointer. When not clamped to 10, a tooltip flipped left lies wholly left of the pointer, and one flipped up lies wholly above it. |
| MindMap.SvgHeight | frontend/src/MindMap.jsx:77 | The height is `max(600, 80 × entries)`. |
| Agreement.Items | frontend/src/App.js:279 | The posted objects give the backend back exactly the frontend's transcripts. |
| Agreement.Serve | backend/main.py:90-454 | The backend's answer to each request the frontend sends: the posted object built from the request, passed to the matching endpoint. |
| Agreement.SentRequestsAreAnswered | backend/main.py:173 | A request meeting the frontend's thresholds is never declined and never skipped as too short. |
| Agreement.AnalysisUsesSentTheme | frontend/src/App.js:113-116 | The frontend always posts a theme, so the backend analyses under that id's viewpoints and never under its own default. |
| Agreement.SanitizersAgree | backend/main.py:224-229 | On a reply without backquotes whose braces are in order or missing, both sanitizers give the same text. |
| Agreement.SanitizersDisagreeOnInvertedBraces | frontend/src/App.js:132 | With inverted braces and text between them, JavaScript keeps that text and Python gives the empty text. |

## Left out

- The network, the Flask routing, CORS and `app.run` are not modelled. Neither is the Gemini `generate_content` call. Replies, the model's text and `JSON.parse`/`json.loads` are parameters, and parsing follows RFC 8259 only through them.
- Speech recognition, the `setTimeout` auto-analysis, alerts, console logging, `toLocaleTimeString` timestamps and all rendering are left out. The timestamp is a parameter.
- The two copies of the submission (`analyzeText` and `analyzeTextWithTranscript`) are one method, `Submit(text)`. They differ only in where the text comes from and whether a blank input raises an alert.
- `analyzeGaps` and `classifyTopics` are fired without `await`, and React state updates are asynchronous; the model runs them in order within the step. The step resolves themes from the theme it started with, as the JavaScript closure does.
- App.Session.AnalyzeGaps: the id falls back to the stored theme read at the call. Inside a submission the id passed in is never empty, so the fallback does not apply.
- The frontend sends `h.transcript || h` to theme detection. The model sends the transcript, which is never blank in a session.
- JavaScript `length` and `substring` count UTF-16 code units, and Python counts code points. The model counts Dafny characters, so label cut points and brace positions agree only where every character is a single unit.
- MindMap.TooltipPosition, MindMap.Place: `pageX` and `pageY` can be fractional in the browser, but the model takes integers. Every step of the placement is a comparison, an addition or a subtraction, so the same formulas hold for any number.
- Flask's `jsonify` sorts object keys, so `dimensions` and `dimensions_used` reach the frontend in alphabetical key order. The model keeps the table's order, and no contract depends on that order.
- A stance naming a property every JavaScript object has (such as `toString`) would make `stanceGroups[stance].push` throw. The model treats it like any other unknown stance. The unused `id` of each group element is not modelled.
- JSON `null` values and non-string fields (for example a non-string `theme` or `transcript`) are not modelled. Where the model takes an optional field, it stands for a key that is either absent or a string.
- The D3 layout, node colours and SVG drawing are not modelled. Nor are the tab buttons' disabled state, the prompt wording beyond the modelled pieces, or the `dimension_labels` wording.
- Two cases leave the previous gaps in place rather than clearing them:
  - When gap analysis is skipped (no gap theme, or under two entries after a commit), the gaps are left unchanged.
  - When the gap request throws, the previous gaps are kept.
- MindMap.TopicTree, MindMap.BuildTree: a topic the model returns without `speech_indices` or without `name` makes the mind map throw (at `topic.speech_indices.map` and at `d.data.name.length`), since the classification is stored unchecked. The model's `Topic` always has both fields, so it does not capture that crash.
