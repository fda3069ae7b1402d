# English Journal helpers — a verified model

This project models the hand-written logic of the English Journal application: its React frontend and its FastAPI backend. The chat-model, embedding and vector-store work that the application hands to libraries is not modelled. The pieces modelled are:

- **The inline-suggestion engine** (`frontend/src/utils/englishAnalyzer.js`):
  - a fixed table of six regular-expression rules, each scanned with a global `exec` loop;
  - a double-space scan;
  - a stable sort of the resulting `Issue` ranges by start;
  - `applySuggestion`, which splices a suggestion over its range.

  The regexes are modelled as `\b(phrase|phrase…)\b`, where a phrase is literal words joined by `\s+` and the `i` flag is ASCII case folding.
- **The analyzer hook** (`frontend/src/hooks/useEnglishAnalyzer.tsx` and its line-for-line twin `useEnglishAnalyzer.js`):
  - applying one suggestion;
  - "apply all", which applies the issues back to front;
  - the highlighted preview, split into plain and marked spans;
  - the mock Revise button, built from two global replaces.
- **The entry store** (`frontend/src/hooks/useLocalStorage.ts`, twin `.js`):
  - the entry list with prepend, remove-by-id and replace-by-id;
  - the copy saved to storage, kept as a ghost field.
- **The journal page** (`frontend/src/components/EnglishJournal.tsx`, twin `.jsx`):
  - the editor state and its handlers;
  - the search filter.
- **The tabs component** (`frontend/src/components/ui/tabs.tsx`, twin `tabs.jsx`): controlled versus uncontrolled selection, trigger styling and clicks, and panel visibility.
- **The WebSocket client** (`frontend/src/hooks/useWebSocket.ts`):
  - the status transitions;
  - a reconnect counter bounded by 5, with capped exponential backoff;
  - messages that are sent only while the socket is open.
- **The revision panel's real-time checks** (`frontend/src/components/RevisionPanel.tsx`): the word before the cursor and the sentence a punctuation mark completes (see Findings).
- **The feedback card** (`frontend/src/components/RealtimeFeedback.tsx`): status colours and texts, score bands, and the conditions for each banner.
- **The `/ask` endpoint's bookkeeping** (`backend/main.py`): the tool-call log, the decision summary, the chat history and the health check.
- **The student exercise** (`backend/services/learn.py`): the `Student` record with its average, and the list-building loops.

The WebSocket route that the client connects to is not part of `backend/main.py`. No server-side sentence segmenter or session store is modelled.

Modules: `Wrappers` (Option/Result), `Seqs` (filter/map and subsequences), `Text` (JavaScript string primitives), `EnglishAnalyzer`, `AnalyzerHook`, `EntryStore`, `Journal`, `Tabs`, `WebSocketClient`, `RevisionPanel`, `RealtimeFeedback`, `AskLog`, `Learn`.

Values the program obtains from the outside world are parameters of the model:

- the fresh entry id and timestamp;
- the uploaded files' data URLs;
- the outcome of creating a socket;
- the replies of the checking service;
- the agent's steps, output and memory.

## Model

| member | source | states |
|---|---|---|
| EnglishAnalyzer.MatchAlternatives | frontend/src/utils/englishAnalyzer.js:6-11 | a match of a rule pattern is non-empty and ends on a word boundary |
| EnglishAnalyzer.MatchAt | frontend/src/utils/englishAnalyzer.js:15 | a match starts and ends on a word boundary and lies inside the text |
| EnglishAnalyzer.NextMatch | frontend/src/utils/englishAnalyzer.js:15 | `exec` from `lastIndex` finds the leftmost match at or after it; no earlier position matches |
| EnglishAnalyzer.ScanRule | frontend/src/utils/englishAnalyzer.js:14-17 | one rule's issues lie in the text, hold the matched text, carry the rule's suggestion and reason, and do not overlap one another |
| EnglishAnalyzer.ScanRules | frontend/src/utils/englishAnalyzer.js:13-18 | every issue of the first n rules lies in the text and takes its suggestion and reason from the table |
| Text.IndexOf | frontend/src/utils/englishAnalyzer.js:21 | a found position is at or after `from` and the needle occurs there |
| Text.IndexOfIsFirst | frontend/src/utils/englishAnalyzer.js:21 | no position from `from` up to the found one (or anywhere, when nothing is found) holds the needle |
| EnglishAnalyzer.DoubleSpacesStep | frontend/src/utils/englishAnalyzer.js:21-23 | one round of the double-space loop: the pair found at j lies in the text, is pushed as [j, j+2), and the scan resumes at j+2 |
| EnglishAnalyzer.DoubleSpacesValid | frontend/src/utils/englishAnalyzer.js:20-24 | double-space issues lie in the text at or after the scan start, hold "  ", suggest " " and give the double-space reason |
| EnglishAnalyzer.DoubleSpacesDisjoint | frontend/src/utils/englishAnalyzer.js:20-24 | double-space issues are pairwise disjoint, because the scan resumes at i+2 |
| EnglishAnalyzer.RawIssues | frontend/src/utils/englishAnalyzer.js:13-24 | every pushed issue is valid in the text and comes from the table or the double-space fix |
| EnglishAnalyzer.InsertByStart | frontend/src/utils/englishAnalyzer.js:25 | insertion keeps every element and adds exactly the new one (multiset) |
| EnglishAnalyzer.InsertKeepsLowerBound | frontend/src/utils/englishAnalyzer.js:25 | inserting an issue that starts at or after a bound into a list whose starts are at or after it keeps that bound |
| EnglishAnalyzer.InsertKeepsSorted | frontend/src/utils/englishAnalyzer.js:25 | inserting into a list sorted by start keeps it sorted |
| EnglishAnalyzer.SortByStart | frontend/src/utils/englishAnalyzer.js:25 | the sort returns a permutation of its input, sorted by start |
| EnglishAnalyzer.InsertKeepsTies | frontend/src/utils/englishAnalyzer.js:25 | an inserted issue goes before the issues with the same start; the issues of every other start are unchanged |
| EnglishAnalyzer.SortIsStable | frontend/src/utils/englishAnalyzer.js:25 | issues with equal start keep their pushed order: rule-table order, then double spaces |
| EnglishAnalyzer.Analysis | frontend/src/utils/englishAnalyzer.js:25 | the returned issues are sorted by start and are a permutation of the pushed issues |
| EnglishAnalyzer.AnalysisFacts | frontend/src/utils/englishAnalyzer.js:16-25 | every returned issue satisfies 0 <= start < end <= length, holds content[start..end] and has a table or double-space suggestion |
| EnglishAnalyzer.ExecRule | frontend/src/utils/englishAnalyzer.js:14-17 | the `while (exec)` loop pushes exactly the issues of ScanRule, and so terminates |
| EnglishAnalyzer.ExecDoubleSpaces | frontend/src/utils/englishAnalyzer.js:20-24 | the `indexOf` loop pushes exactly the double-space issues, and so terminates |
| EnglishAnalyzer.PseudoAnalyze | frontend/src/utils/englishAnalyzer.js:2-26 | the result is the sorted permutation of all pushed issues; it is sorted, and each issue is valid and comes from the table |
| EnglishAnalyzer.ScanRulesIncludes | frontend/src/utils/englishAnalyzer.js:13-18 | an issue of one rule is among the issues of every longer prefix of the table |
| EnglishAnalyzer.RuleIssueInRaw | frontend/src/utils/englishAnalyzer.js:13-18 | an issue any rule of the table reports is pushed |
| EnglishAnalyzer.RawInAnalysis | frontend/src/utils/englishAnalyzer.js:25 | sorting loses no pushed issue |
| EnglishAnalyzer.RulesMayOverlap | frontend/src/utils/englishAnalyzer.js:9-25 | issues of different rules can overlap: "very  good" yields [0,10) and [4,6) |
| EnglishAnalyzer.ApplySuggestion | frontend/src/utils/englishAnalyzer.js:28-30 | the text before start and after end is kept, the suggestion sits between them, and the length changes by |suggestion| - (end - start) |
| AnalyzerHook.ApplySingle | frontend/src/hooks/useEnglishAnalyzer.tsx:51-55 | undefined exactly when there is no issue at idx; otherwise, whenever that issue's range lies inside the content (even if its text went stale), prefix + suggestion + suffix |
| AnalyzerHook.ApplyInRange | frontend/src/utils/englishAnalyzer.js:28-30 | within range, a splice is prefix + suggestion + suffix |
| AnalyzerHook.BackToFrontKeepsSuffix | frontend/src/hooks/useEnglishAnalyzer.tsx:59-62 | text after every issue is carried along unchanged by the back-to-front splices |
| AnalyzerHook.SliceOfPrefix | frontend/src/hooks/useEnglishAnalyzer.tsx:61 | a slice inside a prefix is the same slice of the whole text |
| AnalyzerHook.RebuildSplitLast | frontend/src/hooks/useEnglishAnalyzer.tsx:59-62 | the left-to-right rebuild up to the last issue reads only the text before it |
| AnalyzerHook.BackToFrontLast | frontend/src/hooks/useEnglishAnalyzer.tsx:59-62 | splicing the last issue first leaves the text before it to the other splices, followed by its suggestion and the rest of the text |
| AnalyzerHook.RebuildLast | frontend/src/hooks/useEnglishAnalyzer.tsx:59-62 | the rebuild ends with the last issue's suggestion and the rest of the text, after the rebuild of the text before it |
| AnalyzerHook.BackToFrontIsRebuild | frontend/src/hooks/useEnglishAnalyzer.tsx:59-62 | for disjoint issues in order, applying back to front equals the gap/suggestion/tail rebuild: no splice shifts an index still to be used |
| AnalyzerHook.ReplaceAll | frontend/src/hooks/useEnglishAnalyzer.tsx:45-46 | with no match left the rest of the text is kept; otherwise the text up to the first match is kept and the replacement follows it |
| AnalyzerHook.ReplaceAllIsRebuild | frontend/src/hooks/useEnglishAnalyzer.tsx:45-46 | a global regex replace is the rebuild over the issues a rule with that pattern would report |
| AnalyzerHook.ApplyAll | frontend/src/hooks/useEnglishAnalyzer.tsx:57-64 | the loop applies the issues last first; no issues leaves the content unchanged; for disjoint sorted issues it is the left-to-right rebuild |
| AnalyzerHook.Highlight | frontend/src/hooks/useEnglishAnalyzer.tsx:25-40 | the preview has 2·|issues|+1 spans: a gap and a marked span per issue, then the tail |
| AnalyzerHook.SegmentCount | frontend/src/hooks/useEnglishAnalyzer.tsx:29-38 | the span list has 2·|issues|+1 entries |
| AnalyzerHook.ShownAppend | frontend/src/hooks/useEnglishAnalyzer.tsx:39 | the text shown by two span lists in a row is their texts concatenated |
| AnalyzerHook.SegmentsHead | frontend/src/hooks/useEnglishAnalyzer.tsx:29-34 | the first gap and marked span show the text from `last` to the first issue's end |
| AnalyzerHook.SegmentsCoverText | frontend/src/hooks/useEnglishAnalyzer.tsx:29-38 | for disjoint sorted issues in range, the spans from `last` on show exactly content[last..] |
| AnalyzerHook.PreviewIsContent | frontend/src/hooks/useEnglishAnalyzer.tsx:26-39 | for disjoint sorted issues the preview reassembles the content exactly |
| AnalyzerHook.MarkedSpan | frontend/src/hooks/useEnglishAnalyzer.tsx:31-34 | the k-th highlighted span shows issue k's own text content[start..end] with its reason |
| AnalyzerHook.PreviewRepeatsOverlap | frontend/src/hooks/useEnglishAnalyzer.tsx:29-38 | with the overlapping issues of "very  good" the preview shows "very  good  good" |
| AnalyzerHook.Revise | frontend/src/hooks/useEnglishAnalyzer.tsx:43-49 | the revised text always ends with "\n\n[AI revision completed]" |
| EntryStore.RemoveById | frontend/src/hooks/useLocalStorage.ts:20-21 | removes exactly the entries with that id and keeps every other entry, with its multiplicity, in order; an absent id changes nothing |
| EntryStore.ReplaceById | frontend/src/hooks/useLocalStorage.ts:26-27 | same length; entries with the id become the update, all others are unchanged; an absent id changes nothing |
| EntryStore.RemoveAfterAdd | frontend/src/hooks/useLocalStorage.ts:14-21 | removing the id of a just-added entry is removing it from the old list |
| EntryStore.EntryStore.constructor | frontend/src/hooks/useLocalStorage.ts:12 | the initial list is what was loaded, which is also what storage holds |
| EntryStore.EntryStore.AddEntry | frontend/src/hooks/useLocalStorage.ts:14-18 | the new entry is first and the old entries follow in order; the saved copy equals the list |
| EntryStore.EntryStore.RemoveEntry | frontend/src/hooks/useLocalStorage.ts:20-24 | the list becomes the filtered list; the saved copy equals it |
| EntryStore.EntryStore.UpdateEntry | frontend/src/hooks/useLocalStorage.ts:26-30 | the list becomes the replaced list; the saved copy equals it |
| Journal.OrElse | frontend/src/components/EnglishJournal.tsx:88 | `x \|\| d` gives the value when it is a non-empty string, and d when it is missing or empty |
| Journal.FilterEntries | frontend/src/components/EnglishJournal.tsx:33-41 | a blank search returns all entries; otherwise an entry is kept iff its lower-cased title, category or content (missing as "") contains the trimmed lower-cased query, every copy of a kept entry is kept, and the result is an order-preserving subsequence |
| Journal.IsSubsequenceRefl | frontend/src/components/EnglishJournal.tsx:35 | the unfiltered list is a subsequence of itself |
| Journal.FilterTwice | frontend/src/components/EnglishJournal.tsx:33-41 | filtering the filtered list again with the same search changes nothing |
| Journal.JournalEditor.constructor | frontend/src/components/EnglishJournal.tsx:11-32 | the page starts on "write" with empty fields, category "Toastmasters" and the loaded entries |
| Journal.JournalEditor.AddEntry | frontend/src/components/EnglishJournal.tsx:61-84 | a blank title or content adds nothing; otherwise the entry, with trimmed title and untrimmed content, is prepended and saved, the editor is reset and the tab becomes "entries" |
| Journal.JournalEditor.SaveAndClear | frontend/src/components/EnglishJournal.tsx:75-83 | the entry is prepended and saved, the title, content, revision and media are cleared, the tab becomes "entries", and the category, issues and search are kept |
| Journal.JournalEditor.EditEntry | frontend/src/components/EnglishJournal.tsx:86-93 | missing text fields become "", a missing or empty category becomes "Others", missing media [], and the tab becomes "write" |
| Journal.JournalEditor.RemoveEntry | frontend/src/components/EnglishJournal.tsx:95-97 | the store drops the entries with that id |
| Journal.JournalEditor.Upload | frontend/src/components/EnglishJournal.tsx:99-112 | uploaded URLs go before the existing media, in file order; every other field is unchanged |
| Journal.JournalEditor.Reanalyze | frontend/src/hooks/useEnglishAnalyzer.tsx:19-22 | the issues become the analysis of the current content; every other field is unchanged |
| Journal.JournalEditor.ApplySingleClick | frontend/src/components/EnglishJournal.tsx:43-48 | an index with no issue leaves the content unchanged; otherwise the content becomes the non-empty splice; every other field is unchanged |
| Journal.JournalEditor.ApplyAllClick | frontend/src/components/EnglishJournal.tsx:50-55 | the content becomes the back-to-front result unless that result is empty; every other field is unchanged |
| Journal.JournalEditor.ReviseClick | frontend/src/components/EnglishJournal.tsx:57-59 | `revised` becomes the Revise text of the content; every other field is unchanged |
| Tabs.TriggerActive | frontend/src/components/ui/tabs.tsx:62-78 | outside Tabs it throws; inside, a trigger is active iff its value is the current value |
| Tabs.TriggerClick | frontend/src/components/ui/tabs.tsx:78 | a click requests the trigger's own value; outside Tabs it throws |
| Tabs.ContentVisible | frontend/src/components/ui/tabs.tsx:91-100 | outside Tabs it throws; inside, a panel renders iff its value is the current value |
| Tabs.ActiveTriggerShowsItsContent | frontend/src/components/ui/tabs.tsx:73-98 | a trigger is styled active exactly when the panel with its value renders |
| Tabs.OnePanelAtATime | frontend/src/components/ui/tabs.tsx:98-100 | two rendered panels have the same value |
| Tabs.TabsState.Typed | frontend/src/components/ui/tabs.tsx:18-19 | the internal value starts as defaultValue, or "" when it is omitted |
| Tabs.TabsState.Untyped | frontend/src/components/ui/tabs.jsx:6-7 | the internal value starts as defaultValue, which may be undefined |
| Tabs.TabsState.CurrentValue | frontend/src/components/ui/tabs.tsx:21 | the value prop when it is defined, otherwise the internal value |
| Tabs.TabsState.HandleValueChange | frontend/src/components/ui/tabs.tsx:23-28 | the internal value changes only when uncontrolled; the callback, if given, receives every change |
| Tabs.TabsState.ClickTrigger | frontend/src/components/ui/tabs.tsx:78 | uncontrolled, the internal value becomes the clicked value and its panel renders; controlled, the internal value and everything shown are kept; the value prop is never changed; the callback hears the click |
| Tabs.TabsState.SetValueProp | frontend/src/components/ui/tabs.tsx:21 | the parent's new value prop replaces the old one; the internal value is kept |
| WebSocketClient.Pow2 | frontend/src/hooks/useWebSocket.ts:83 | 2^n is at least 1 |
| WebSocketClient.Backoff | frontend/src/hooks/useWebSocket.ts:83 | the delay never exceeds 10000 ms |
| WebSocketClient.Pow2Monotone | frontend/src/hooks/useWebSocket.ts:83 | 2^m <= 2^n for m <= n |
| WebSocketClient.BackoffBounds | frontend/src/hooks/useWebSocket.ts:81-83 | after the increment, every delay lies in [2000, 10000] |
| WebSocketClient.BackoffMonotone | frontend/src/hooks/useWebSocket.ts:83 | a later attempt never waits less |
| WebSocketClient.BackoffSchedule | frontend/src/hooks/useWebSocket.ts:81-83 | the delays of the five attempts are 2000, 4000, 8000, 10000, 10000 |
| WebSocketClient.Client.constructor | frontend/src/hooks/useWebSocket.ts:30-36 | disconnected, no socket, counter 0 |
| WebSocketClient.Client.Connect | frontend/src/hooks/useWebSocket.ts:39-100 | a no-op while the socket is open; otherwise the status is "connecting", then "error" if the socket cannot be created |
| WebSocketClient.Client.OnOpen | frontend/src/hooks/useWebSocket.ts:49-54 | connected, `isConnected` true, counter reset to 0 |
| WebSocketClient.Client.OnError | frontend/src/hooks/useWebSocket.ts:69-72 | the status becomes "error"; `isConnected` is unchanged |
| WebSocketClient.Client.OnClose | frontend/src/hooks/useWebSocket.ts:74-93 | disconnected and socket dropped; a reconnect is scheduled iff the counter was below 5, and the counter then grows by one, so it never exceeds 5; the delay is the backoff |
| WebSocketClient.Client.TimerFires | frontend/src/hooks/useWebSocket.ts:87-89 | the pending reconnect is cleared and runs `connect`: unchanged when open, error on a construction failure, connecting otherwise; `isConnected`, the counter and the sent messages stay |
| WebSocketClient.Client.Disconnect | frontend/src/hooks/useWebSocket.ts:102-115 | the timer is cleared, the socket dropped, the status "disconnected"; the counter is kept |
| WebSocketClient.Client.SendMessage | frontend/src/hooks/useWebSocket.ts:117-123 | a message is transmitted iff the socket is open, otherwise dropped |
| WebSocketClient.Client.Start | frontend/src/hooks/useWebSocket.ts:125-127 | sends `{type: 'start_session'}` when open; socket, status, counter, `isConnected` and pending reconnect unchanged |
| WebSocketClient.Client.SendTextUpdate | frontend/src/hooks/useWebSocket.ts:129-131 | sends `{type: 'text_update', text}` when open; socket, status, counter, `isConnected` and pending reconnect unchanged |
| WebSocketClient.Client.RequestImprovementFor | frontend/src/hooks/useWebSocket.ts:133-135 | sends `{type: 'request_improvement', text}` when open; socket, status, counter, `isConnected` and pending reconnect unchanged |
| WebSocketClient.Client.Heartbeat | frontend/src/hooks/useWebSocket.ts:142-146 | a ping is sent only while open; socket, status, counter, `isConnected` and pending reconnect unchanged |
| RevisionPanel.WordStart | frontend/src/components/RevisionPanel.tsx:72-74 | the word before the cursor is the maximal trailing run of [A-Za-z0-9_] |
| RevisionPanel.CurrentWord | frontend/src/components/RevisionPanel.tsx:73-74 | the word is a suffix of the text before the cursor, made only of word characters, and not preceded by one |
| RevisionPanel.CurrentWordStartsAtBoundary | frontend/src/components/RevisionPanel.tsx:73 | a non-empty current word starts on a word boundary and holds only word characters |
| RevisionPanel.DigitsAreNotChecked | frontend/src/components/RevisionPanel.tsx:77 | a word without an ASCII letter is never sent for checking |
| RevisionPanel.WordPosition | frontend/src/components/RevisionPanel.tsx:72-85 | the recorded position satisfies text[position..cursorPos] == currentWord |
| RevisionPanel.LastChar | frontend/src/components/RevisionPanel.tsx:91 | `text[cursorPos - 1]` is defined iff 1 <= cursorPos <= length |
| RevisionPanel.Split | frontend/src/components/RevisionPanel.tsx:93 | a split always has at least one piece |
| RevisionPanel.LastOfSplitSnoc | frontend/src/components/RevisionPanel.tsx:93 | a delimiter appended to the text starts an empty last piece; any other character extends the last piece |
| RevisionPanel.LastPieceIsTail | frontend/src/components/RevisionPanel.tsx:93-94 | the last piece of the split is the longest delimiter-free suffix |
| RevisionPanel.LastPieceAfterDelimiter | frontend/src/components/RevisionPanel.tsx:93-94 | a delimiter-free stretch after a delimiter is the last piece |
| RevisionPanel.CurrentSentence | frontend/src/components/RevisionPanel.tsx:93-94 | the sentence as written is the trimmed text after the last delimiter (or from the start) |
| RevisionPanel.SentenceCheckNeverFires | frontend/src/components/RevisionPanel.tsx:91-97 | whenever the sentence branch is taken, the current sentence as written is "" |
| RevisionPanel.SentenceToCheckAsWritten | frontend/src/components/RevisionPanel.tsx:91-97 | the code as written never sends a sentence |
| RevisionPanel.CompletedSentence | frontend/src/components/RevisionPanel.tsx:93-94 | the corrected sentence is the trimmed stretch between the previous delimiter (or the start) and the final one |
| RevisionPanel.CompletedSentenceIsLastSentence | frontend/src/components/RevisionPanel.tsx:93-97 | after prefix + sentence + delimiter, the corrected sentence is the trimmed sentence |
| RevisionPanel.FirstOrEmpty | frontend/src/components/RevisionPanel.tsx:82 | `suggestions?.[0] \|\| ''` |
| RevisionPanel.WordRecorded | frontend/src/components/RevisionPanel.tsx:79-87 | when a word was sent and the service answered that it is wrong, the new record holds that word, its first suggestion (or ""), the explanation and the position; otherwise the record is unchanged |
| RevisionPanel.SentenceRecorded | frontend/src/components/RevisionPanel.tsx:96-106 | when a sentence was sent and answered, the new record holds that sentence and the reply's issues, suggestions, score and explanation with their defaults; otherwise the record is unchanged |
| RevisionPanel.Panel.constructor | frontend/src/components/RevisionPanel.tsx:45-48 | no checks, not loading, not connected |
| RevisionPanel.Panel.CheckConnection | frontend/src/components/RevisionPanel.tsx:51-62 | `apiConnected` becomes the health check's outcome |
| RevisionPanel.Panel.PerformRealTimeCheck | frontend/src/components/RevisionPanel.tsx:65-115 | nothing happens when not connected; a word with a letter is checked and recorded when wrong; a rejection skips the sentence check; `isLoading` is false afterwards |
| RevisionPanel.Panel.CheckWord | frontend/src/components/RevisionPanel.tsx:72-88 | the word sent is the word before the cursor when it holds a letter; the word check is updated as WordRecorded says; nothing else changes |
| RevisionPanel.Panel.CheckSentence | frontend/src/components/RevisionPanel.tsx:91-108 | the sentence sent is the corrected one (see Findings): the one the delimiter before the cursor completed, where the code as written sends none; the sentence check is updated as SentenceRecorded says; nothing else changes |
| RevisionPanel.Panel.ApplyRealTimeSuggestion | frontend/src/components/RevisionPanel.tsx:129-137 | a word suggestion clears `wordCheck` and requests issue -1, which never exists, so the content is never changed |
| RealtimeFeedback.StatusColor | frontend/src/components/RealtimeFeedback.tsx:26-37 | each status has its own colour; everything else is gray |
| RealtimeFeedback.StatusText | frontend/src/components/RealtimeFeedback.tsx:39-50 | each status has its own text; everything else is "未连接" |
| RealtimeFeedback.StatusColorMatchesText | frontend/src/components/RealtimeFeedback.tsx:26-50 | two statuses share a colour iff they share a text |
| RealtimeFeedback.ScoreColor | frontend/src/components/RealtimeFeedback.tsx:52-57 | green from 0.9, blue from 0.7, yellow from 0.5 and red below, each colour for exactly its range |
| RealtimeFeedback.ScoreLabel | frontend/src/components/RealtimeFeedback.tsx:59-64 | "优秀" from 0.9, "良好" from 0.7, "一般" from 0.5 and "需要改进" below, each label for exactly its range |
| RealtimeFeedback.BandOf | frontend/src/components/RealtimeFeedback.tsx:59-64 | bands are [0.9,∞), [0.7,0.9), [0.5,0.7) and below 0.5 |
| RealtimeFeedback.ScoreBadgeAgrees | frontend/src/components/RealtimeFeedback.tsx:52-64 | label and colour are both those of the score's band |
| RealtimeFeedback.SameLabelSameColor | frontend/src/components/RealtimeFeedback.tsx:52-64 | scores with the same label get the same colour |
| RealtimeFeedback.BandMonotone | frontend/src/components/RealtimeFeedback.tsx:59-64 | a higher score never gets a lower band |
| RealtimeFeedback.PraiseIsTopBand | frontend/src/components/RealtimeFeedback.tsx:158-164 | praise shows iff feedback has no issues, no suggestions and a score in the top band |
| RealtimeFeedback.BannersExclusive | frontend/src/components/RealtimeFeedback.tsx:169-181 | the hint and the analysing banner never show together, nor beside feedback |
| AskLog.BuildStepsLog | backend/main.py:94-101 | one record per intermediate step, in order, with the tool and the stringified input and observation |
| AskLog.MakeDecisionLog | backend/main.py:104-110 | "调用工具" iff there are steps, otherwise "直接回答"; the tool used is the first step's; steps and answer are passed through |
| AskLog.History | backend/main.py:115-118 | one role/content pair per memory message, in order |
| AskLog.Ask | backend/main.py:91-119 | the answer and the final answer are the agent's output, and the decision log is built from the step log |
| AskLog.HealthCheck | backend/main.py:139-142 | always `{"status": "healthy", "service": "english-checker"}` |
| Learn.Average | backend/services/learn.py:157-172 | 0 without subjects; otherwise average × count == sum of scores |
| Learn.MinScore | backend/services/learn.py:168-171 | the lowest score is one of the scores and is at most each |
| Learn.MaxScore | backend/services/learn.py:168-171 | the highest score is one of the scores and is at least each |
| Learn.SumBounds | backend/services/learn.py:168 | a sum of n scores lies between n·lo and n·hi |
| Learn.AverageBetween | backend/services/learn.py:168-171 | the average lies between the lowest and the highest score |
| Learn.AverageWithin | backend/services/learn.py:168-171 | when every score lies in [lo, hi], so does the average |
| Learn.BoundedMean | backend/services/learn.py:171 | a mean whose total lies between n·lo and n·hi lies between lo and hi |
| Learn.SumSnoc | backend/services/learn.py:151-152 | appending a score adds exactly that score to the sum |
| Learn.Student.constructor | backend/services/learn.py:145-149 | a new student has an empty subject list |
| Learn.Student.CalculateAverage | backend/services/learn.py:157-172 | 0 without subjects; otherwise between the lowest and the highest score |
| Learn.Student.AddSubject | backend/services/learn.py:151-152 | appends exactly one record at the end; earlier records are unchanged; no deduplication |
| Learn.CreateStudent | backend/services/learn.py:175-176 | the same state as the constructor |
| Learn.Evens | backend/services/learn.py:67-70 | exactly the even numbers, in order |
| Learn.Names | backend/services/learn.py:84-86 | every name, in order |
| Learn.HighScorers | backend/services/learn.py:99-103 | the names of the students scoring over 80, in order |
| Learn.Squares | backend/services/learn.py:115-117 | the squares, same length, position by position |
| Learn.EvenAges | backend/services/learn.py:130-133 | the even ages, in order |

## Left out

- `toLowerCase` is modelled on ASCII letters only. For the rule patterns this is exact, because the `i` flag without `u` never maps a non-ASCII character onto ASCII. For the journal search it differs on non-ASCII letters.
- The regular-expression engine is modelled only for the shapes the code uses: `\b(w1\s+w2…|…)\b` with literal words. Greedy `\s+` never needs to backtrack, because every word starts with a non-space character.
- Timers are not modelled. This covers the 300 ms and 500 ms debounces, the reconnect `setTimeout` and the 30 s heartbeat interval. Each callback is a method the environment calls: `Reanalyze`, `PerformRealTimeCheck`, `TimerFires`, `Heartbeat`.
- React rendering is not modelled: JSX markup, CSS classes other than the status and score colours, `TabsList`, and the rendering components.
- `alert` is not modelled.
- The saving of entries to `localStorage` and the JSON that encodes them are not modelled. The saved copy is the ghost field `persisted`.
- `loadEntries` error handling is not part of this model.
- `crypto.randomUUID`, `new Date()` and `FileReader` are left out. Their results are parameters.
- WebSocket `onmessage` is not modelled: neither the JSON parsing of incoming messages nor `lastMessage`.
- Events from a socket that a later `connect` has replaced are not modelled. The model holds one socket reference and applies every event to it.
- WebSocketClient.Client.TimerFires: it is modelled only while a reconnect timer is pending. A timer that `disconnect` cleared never fires.
- Tabs.TriggerClick: `TabsTrigger` spreads the caller's props after its own `onClick`, so an `onClick` prop would replace the value request; no call site in the app passes one, and the model assumes none.
- Tabs.TriggerActive: the `tabs.jsx` twin has no context guard. There, destructuring the missing context throws a TypeError instead of the named error. The model gives the `tabs.tsx` messages.
- RevisionPanel.WordPosition: it is stated for a cursor inside the text, the only case the component uses (`content.length`). Beyond the text, `slice` clamps and the recorded position is not an index of the text.
- RevisionPanel.Panel.PerformRealTimeCheck: it uses the corrected sentence (see Findings), so it describes the intended behaviour rather than the code as written.
- RevisionPanel.Panel.CheckSentence: it sends the corrected sentence (see Findings). The code as written never sends one, which SentenceToCheckAsWritten states.
- String positions are Unicode characters, while JavaScript counts UTF-16 code units. This affects issue `start`/`end`, `content.length`, `cursorPos` and the recorded word position. With a character outside the Basic Multilingual Plane, such as an emoji before the issue, every source offset after it is one larger per such character. The extracted and spliced strings are the same.
- The checking service (`checkWord`, `checkSentence`, `checkHealth`), the agent, its memory and Python's `str` are not modelled. Their answers, or the rendering function, are parameters.
- `get_info` and `display_students` in `learn.py` only format and print, so they are left out.
- Scores and averages are real numbers, not floating point. NaN and rounding are not modelled.
- The server side of the writing-assistant WebSocket is not part of `backend/main.py`, so it is not modelled.

## Findings

| source | as written | input that shows it | evidently intended | confidence | as-written member | corrected member |
|---|---|---|---|---|---|---|
| frontend/src/components/RevisionPanel.tsx:91-97 | the sentence check runs only when the character before the cursor is one of `.!?;`, and then takes the LAST piece of `beforeCursor.split(/[.!?;]/)`, which is always "" because the text ends with that delimiter; `checkSentence` is never called | "I goes home." with the cursor at the end: the pieces are ["I goes home", ""], and the current sentence is "" | check the sentence the delimiter just completed, the piece before the last: "I goes home" | high (proved for every input; not executed) | RevisionPanel.SentenceCheckNeverFires | RevisionPanel.CompletedSentenceIsLastSentence |
