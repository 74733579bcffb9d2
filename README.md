# CERA report pipeline and progress view, modelled in Dafny

CERA writes a research report on a topic. The back end is a LangGraph graph:

1. `plan_report` asks a language model for the report's sections. It first runs a few web searches.
2. Every section that needs research goes through a builder sub-graph. The builder generates queries, makes one search round and writes the section.
3. The finished sections are rendered as one text.
4. The sections that need no research (introduction, conclusion) are written from that text.
5. `compile_report` puts the written contents back into plan order and joins them with blank lines.

The front end follows the progress events of the graph. It shows a four-step timeline and builds a table of contents from the Markdown headers of the finished report.

The project has seven modules:

- **`Wrappers`**: `Option`.
- **`Text`**: Python-style join, `split('\n')`, `strip`, and generic helpers for sequences.
- **`State`** (backend/state.py): the records, and the framework's merge of a node's update into the report state. Every key is overwritten except `finished_sections_list`, which is concatenated.
- **`Utils`** (backend/utils.py):
  - `format_sections`, with `textwrap.dedent` as Python 3.13 and earlier define it;
  - `tavily_search` over an abstract provider;
  - `format_search_results`: flatten, de-duplicate by URL, truncate, strip;
  - `execute_searches`.
- **`Graph`** (backend/graph.py):
  - every node;
  - the builder sub-graph;
  - the whole run, with the language-model calls as oracle functions in `Oracles`;
  - `compile_report` as an in-place loop over an `array` of sections.
- **`Viewer`** (src/components/ReportViewer.tsx):
  - the mapping from node names to steps;
  - the monotone step update;
  - the viewer's state on each event and on the timeout;
  - the header regex with JavaScript semantics;
  - the `exec` loop that extracts the table of contents;
  - the slug.
- **`Timeline`** (src/components/StatusTimeline.tsx): the step table, `currIdx`, and the status of each step and connector.

Where the code does something other than the obvious reading, the model follows the code:

- **Planning feedback.** `plan_report` passes `state.get('feedback', '')` to the planner. `ReportState` has no `feedback` key, so the planner always sees `""`.
- **`format_sections` and dedent.**
  - The separator line starts at column 0, so the common margin `textwrap.dedent` removes is empty.
  - Every block keeps the 12-space indentation of the template lines.
  - Dedent only empties the lines that hold nothing but spaces and tabs, as in Python 3.13 and earlier. Python 3.14's dedent also empties lines made only of other whitespace, such as `"\x0c"`; that version is not modelled.
  - `Utils.FormatSectionKeepsIndentation` states this for every section, whatever newlines its fields hold.
- **`format_search_results`, no newline before the raw content.** The cleaned content is followed directly by `RAW CONTENT:`.
- **`format_search_results`, de-duplication.** It keeps one entry per URL. The position comes from the first occurrence and the fields from the last, as Python dicts behave.
- **Grading.** The grading loop of `write_section` is commented out. The live builder always makes exactly one search round. No pass/fail retry is modelled as live behaviour.
- **Missing sections.** `compile_report` raises no error for a planned section nobody wrote. Such a section keeps its existing content.
- **Two entries with one name.** If a name appears twice in the finished list, the later entry wins.

## Model

| member | source | states |
|---|---|---|
| State.ParseGrade | backend/state.py:34-37 | a grade is exactly `'pass'` or `'fail'`: each literal parses to its grade, any other string to `None` (both directions) |
| State.ParseGradeLiteral | backend/state.py:35 | every grade's literal parses back to that grade |
| State.InitialState | backend/state.py:42-55 | a run starts with the input topic, no sections, an empty finished list and an empty text and report |
| State.ReportOutput | backend/state.py:45-46 | the graph's output carries the finished report |
| State.BuilderOutput | backend/state.py:66-67 | the builder's output carries its finished list and nothing else |
| State.MergeFinished | backend/state.py:53 | the `operator.add` reducer: the current list followed by the update, never an overwrite |
| State.Apply | backend/state.py:48-55 | merging an update keeps the topic, concatenates the finished list, and overwrites each other key only when the update gives it |
| State.ApplyAllAccumulates | backend/state.py:53 | after any run of updates, the finished list is the initial list followed by every update's list in order |
| State.BuilderOutputHidesPrivateState | backend/state.py:57-67 | two builder states with the same finished list have the same effect on the report state, so no private builder field flows back |
| Utils.FormatSectionKeepsIndentation | backend/utils.py:28-38 | a section's block is its template lines with only whitespace-only lines emptied (dedent's margin is empty) |
| Utils.FormatSectionEndsWithSeparator | backend/utils.py:37-38 | every block ends with a newline, the 80-dash line and an empty line |
| Utils.FormatSectionLines | backend/utils.py:28-38 | for newline-free fields, the block is exactly the twelve rendered lines joined by newlines |
| Utils.TemplateLinesDedent | backend/utils.py:28-38 | dedenting the template lines gives the rendered lines: title, description, research flag, content with their 12-space indent |
| Utils.EmptyContentPlaceholder | backend/utils.py:36 | empty content renders exactly as the content `[no content]` |
| Utils.FormatSections | backend/utils.py:26-40 | the loop's result is the blocks of all sections concatenated in list order |
| Utils.SectionsTextAppend | backend/utils.py:27-39 | rendering a concatenation is concatenating the renderings |
| Utils.SectionsTextSmall | backend/utils.py:26-40 | no sections render as `""`; one section renders as its block |
| Utils.RequestFor | backend/utils.py:74-80 | each provider call asks for the query at the given depth, two results and the raw content |
| Utils.Responses | backend/utils.py:70-85 | one response per query, in query order, each the provider's answer to that query's call |
| Utils.TavilySearch | backend/utils.py:70-85 | the loop building the calls and gathering them returns those responses |
| Utils.Truncate | backend/utils.py:133-134 | raw content of at most 10000 characters is unchanged; longer content becomes its first 10000 characters followed by the marker |
| Utils.TruncateIdempotent | backend/utils.py:133-134 | truncating twice is truncating once, so the marker appears at most once |
| Utils.RawOrEmpty | backend/utils.py:129 | missing or `None` raw content reads as the empty string |
| Utils.SourceBlockEnding | backend/utils.py:124-137 | every source block ends with a dash and two newlines |
| Utils.FlatResultsAppend | backend/utils.py:114-116 | flattening a concatenation of responses concatenates their results |
| Utils.CollectResults | backend/utils.py:114-116 | the `extend` loop yields every result of every response, in response order |
| Utils.LastIndex | backend/utils.py:119 | the last position holding a URL, or -1 exactly when no result has it |
| Utils.DistinctUrlsMembers | backend/utils.py:119 | the de-duplicated URLs are exactly the URLs of the results (both directions) |
| Utils.DistinctUrlsUnique | backend/utils.py:119 | no URL appears twice among the de-duplicated URLs |
| Utils.DistinctUrlsFirstOrder | backend/utils.py:119-123 | the de-duplicated URLs are in order of each URL's first appearance |
| Utils.SourceForMembers | backend/utils.py:119 | a URL has a kept source exactly when it is among the de-duplicated URLs, and that source carries the URL |
| Utils.SourceForExtend | backend/utils.py:119 | a later result with the same URL replaces the kept source: the last one wins |
| Utils.Deduplicate | backend/utils.py:119 | the dict loop's keys are the de-duplicated URLs; each value is the last result with that key |
| Utils.RenderSources | backend/utils.py:121-139 | the rendering loop gives the header and one block per key, in key order, stripped |
| Utils.FormatSearchResults | backend/utils.py:89-139 | `format_search_results` is flatten, de-duplicate and render, as one specification |
| Utils.ExecuteSearches | backend/utils.py:143-154 | `execute_searches` formats the responses of one provider call per query |
| Utils.BlocksForEnding | backend/utils.py:123-137 | any non-empty run of blocks ends with a dash and two newlines |
| Utils.StripHeadered | backend/utils.py:121-139 | stripping the header and blocks removes exactly the two final newlines, or the header's newlines when there is no block |
| Utils.SearchResultsShape | backend/utils.py:121-139 | the output is `CONTENT FROM SOURCES:` alone when there is no block, else the header and the blocks without their last two newlines |
| Utils.SearchResultsStartAndStripped | backend/utils.py:121-139 | the output always begins with `CONTENT FROM SOURCES:` and is already stripped |
| Utils.NoResultsText | backend/utils.py:114-139 | responses without results give exactly `CONTENT FROM SOURCES:` |
| Utils.SearchResultsRepeat | backend/utils.py:114-123 | formatting the responses twice over gives the same text as formatting them once |
| Graph.QueryStrings | backend/graph.py:206 | the query strings are the queries' `search_query` fields, in query order |
| Graph.PlanReport | backend/graph.py:44-126 | planning sets only `sections`, to the planner's answer on the basic-depth search text and empty feedback |
| Graph.WhereMembers | backend/graph.py:140-141 | the filter keeps exactly the sections with the given research flag (both directions) |
| Graph.WhereAppend | backend/graph.py:140-141 | filtering distributes over concatenation, so plan order is kept |
| Graph.WherePartition | backend/graph.py:140-141 | the two filters together hold every section exactly once (as multisets and in number) |
| Graph.WhereUnique | backend/graph.py:140-141 | filtering keeps names distinct |
| Graph.WavesShareNoName | backend/graph.py:371-372 | with distinct planned names, no research section shares a name with a direct section |
| Graph.TaskInput | backend/graph.py:132-139 | a task's input has the given topic, section, iteration count and text, and empty values for the keys a `Send` omits |
| Graph.InitiateSectionWriting | backend/graph.py:130-142 | one `build_section` task per research section, in plan order, each with the report topic and zero search iterations |
| Graph.InitiateIntroAndConclusionWriting | backend/graph.py:362-373 | one `write_intro_and_conclusion` task per non-research section, in plan order, each with the same finished-sections text |
| Graph.WavesPartitionPlan | backend/graph.py:362-373 | across the two waves, every planned section is dispatched exactly once |
| Graph.GenerateQueries | backend/graph.py:147-187 | only the task's queries change, to the model's queries for the section's description |
| Graph.SearchWeb | backend/graph.py:191-214 | the iteration count rises by one, the source text is the formatted search of the query strings, nothing else changes |
| Graph.WriteSection | backend/graph.py:219-288 | the writer output replaces the content, the finished list becomes that one section, and the task always ends |
| Graph.BuiltSection | backend/graph.py:403-411 | a built section keeps its name, description and research flag |
| Graph.RunSectionBuilder | backend/graph.py:403-411 | the builder makes one search round and its only output is the one built section |
| Graph.BuilderSearchesOnce | backend/graph.py:409-411 | every dispatched builder task ends with exactly one search iteration |
| Graph.IntroSection | backend/graph.py:326 | an intro or conclusion keeps its name, description and research flag |
| Graph.WriteIntroAndConclusion | backend/graph.py:292-328 | the task returns its section alone, with only the content replaced by the writer output on the finished-sections text |
| Graph.FormatSectionsAsString | backend/graph.py:332-342 | only `finished_sections_str` is set, to the rendering of the finished list |
| Graph.FinishedContents | backend/graph.py:390 | the dict's keys are exactly the names in the finished list (both directions) |
| Graph.FinishedContentsLast | backend/graph.py:390 | a name maps to the content of its last entry in the finished list |
| Graph.FinishedContentsFrom | backend/graph.py:390 | every mapped content comes from an entry with that name |
| Graph.FinishedContentsUnique | backend/graph.py:390 | with distinct names, each finished section's name maps to its content |
| Graph.FinishedContentsOrderFree | backend/graph.py:390 | with distinct names, the dict does not depend on the order of the finished list |
| Graph.CompileOne | backend/graph.py:392-394 | a planned section found by name takes the finished content; one not found is unchanged |
| Graph.Contents | backend/graph.py:396 | the contents joined are the sections' contents, in section order |
| Graph.CompileReport | backend/graph.py:377-398 | the loop overwrites the contents in place, in plan order; the report is the new contents joined by blank lines |
| Graph.CompiledKeepsUnfinished | backend/graph.py:392-394 | a planned section nobody finished keeps its content, with no error |
| Graph.CompiledLaterWins | backend/graph.py:390-394 | of two finished entries with one name, the later one's content is compiled |
| Graph.CompileOrderFree | backend/graph.py:389-396 | with distinct names, the compiled sections and the report do not depend on the order of the finished list |
| Graph.RunResearchWave | backend/graph.py:417-425 | the research wave appends every research section's built section, in plan order |
| Graph.RunDirectWave | backend/graph.py:426-427 | the direct wave appends every direct section, each written from the same finished-sections text |
| Graph.RunWaves | backend/graph.py:417-427 | from a planned state, the finished list becomes the built research sections followed by the direct sections written from their rendering, which is also `finished_sections_str` |
| Graph.CompileNode | backend/graph.py:377-398 | the node compiles the planned sections in place and sets the report to their joined contents |
| Graph.RunReport | backend/graph.py:414-430 | a whole run ends with the compiled plan, the researched-then-direct finished list, the rendered research text and the report |
| Graph.WrittenWavesUnique | backend/graph.py:140-141 | with distinct planned names, the finished list of a run has distinct names |
| Graph.WrittenContentAt | backend/graph.py:389-394 | with distinct planned names, each planned section compiles to the content its builder or writer produced |
| Graph.FinalContents | backend/graph.py:396 | one written content per planned section, in plan order |
| Graph.PipelineContents | backend/graph.py:403-428 | with distinct planned names, the report holds every planned section's written content, in plan order |
| Viewer.IndexOf | src/components/ReportViewer.tsx:57 | `indexOf` gives the first position of a value, or -1 exactly when it is absent |
| Viewer.LastSegment | src/components/ReportViewer.tsx:46 | the last segment has no dot and is a suffix that is the whole name or follows a dot |
| Viewer.LastSegmentAfterDot | src/components/ReportViewer.tsx:46 | the segment after the last dot is the last segment |
| Viewer.StepFor | src/components/ReportViewer.tsx:48-52 | the fixed table, each entry both ways; any other segment maps to nothing |
| Viewer.NextStep | src/components/ReportViewer.tsx:55-58 | the update takes the new step exactly when it lies further along the steps (or is the same), else keeps the old one |
| Viewer.NextStepMonotone | src/components/ReportViewer.tsx:56-58 | the step's position never decreases, and a known step stays a known step |
| Viewer.NextStepNeverCompletes | src/components/ReportViewer.tsx:56-58 | the update never produces `complete` from a step that is not `complete` |
| Viewer.StartViewing | src/components/ReportViewer.tsx:26-30 | a new topic starts loading, with no report, an open stream and nothing scheduled |
| Viewer.OnStep | src/components/ReportViewer.tsx:39-69 | a closed stream changes nothing; other events only update the step; the exact `compile_report` with a report shows it, stops loading, schedules `complete` and closes |
| Viewer.OnTimeout | src/components/ReportViewer.tsx:65 | the scheduled timeout sets the step to `complete`; otherwise nothing changes |
| Viewer.OnStepAdvances | src/components/ReportViewer.tsx:55-59 | an event that is not the final report moves the step forward only, never to `complete`, and keeps the report |
| Viewer.PrefixedNodeDoesNotFinish | src/components/ReportViewer.tsx:61-68 | a prefixed `compile_report` node updates the step but never delivers the report or closes the stream |
| Viewer.FinalReportCompletes | src/components/ReportViewer.tsx:61-67 | the final report and its timeout leave the report shown, loading stopped, the stream closed and the step `complete` |
| Viewer.MatchAt | src/components/ReportViewer.tsx:87 | a match starts at its position with 1 to 3 `#`, then a title of at least one character |
| Viewer.MatchAtShape | src/components/ReportViewer.tsx:87 | a match is a line start, its `#` run, whitespace, and a title running to the line's end |
| Viewer.FourHashesNoMatch | src/components/ReportViewer.tsx:87 | four `#` in a row never start a header |
| Viewer.LastTitleStartFacts | src/components/ReportViewer.tsx:87 | the title starts after the longest whitespace run that leaves a title character |
| Viewer.NextMatch | src/components/ReportViewer.tsx:91 | `exec` returns a match at or after `lastIndex` |
| Viewer.NextMatchFirst | src/components/ReportViewer.tsx:91 | `exec` finds the first match from `lastIndex` on |
| Viewer.Matches | src/components/ReportViewer.tsx:91 | every match of the loop lies in the text, has a level of 1 to 3 and a non-empty captured title, and is the pattern's match at its own start |
| Viewer.MatchesOrdered | src/components/ReportViewer.tsx:91-97 | the matches are in document order and do not overlap |
| Viewer.MatchesComplete | src/components/ReportViewer.tsx:91-97 | every position where the pattern matches lies within one of the matches found |
| Viewer.JsTrim | src/components/ReportViewer.tsx:93 | a trimmed title is empty or neither starts nor ends with whitespace |
| Viewer.JsTrimSlice | src/components/ReportViewer.tsx:93 | the trimmed title is a slice of the captured text with only whitespace before and after it; with JsTrim's contract this pins the result down |
| Viewer.KeepWordAndSpace | src/components/ReportViewer.tsx:94 | the symbol filter keeps only word characters and whitespace |
| Viewer.KeepWordAndSpaceAppend | src/components/ReportViewer.tsx:94 | the global replace works character by character: filtering a concatenation concatenates the filtered parts |
| Viewer.KeepWordAndSpaceChar | src/components/ReportViewer.tsx:94 | one character survives the filter exactly when it is a word character or whitespace |
| Viewer.CollapseSpacesShape | src/components/ReportViewer.tsx:94 | replacing whitespace runs leaves no whitespace, no two dashes in a row, and only dashes or kept characters |
| Viewer.CollapseSpacesWord | src/components/ReportViewer.tsx:94 | text without whitespace is copied unchanged, and a word in front of more text is copied before the rest is replaced |
| Viewer.CollapseSpacesRun | src/components/ReportViewer.tsx:94 | a non-empty whitespace run becomes exactly one `-` (none when it continues a run) and the text after it is replaced on its own |
| Viewer.SlugShape | src/components/ReportViewer.tsx:94 | a slug has no whitespace and no double dash; each character is a dash or a lower-case word character |
| Viewer.ItemsOfAt | src/components/ReportViewer.tsx:96 | the i-th item is the one the i-th match gives |
| Viewer.TocFromStep | src/components/ReportViewer.tsx:91-97 | one loop turn: no match ends the list; a match pushes its item and the loop resumes at its end |
| Viewer.ExtractToc | src/components/ReportViewer.tsx:85-101 | the `exec` loop pushes exactly one item per match, in order |
| Viewer.TocItemsShape | src/components/ReportViewer.tsx:91-96 | one item per match, in order: each match is the pattern's match at its start, the item's level is its `#` count (1 to 3), its title the trimmed captured text, and its id the slug of that title |
| Viewer.HeaderLineMatch | src/components/ReportViewer.tsx:87 | a line of 1 to 3 `#`, a space and a title matches at its start, with the title running to its end |
| Viewer.SingleHeader | src/components/ReportViewer.tsx:87-96 | a report that is one header line yields exactly one item: its slug, trimmed title and level |
| Viewer.UpdateToc | src/components/ReportViewer.tsx:85-101 | a non-empty report replaces the table of contents with its items; otherwise it is unchanged |
| Timeline.FindIndex | src/components/StatusTimeline.tsx:17 | `findIndex` gives the first step with the id, or -1 exactly when there is none |
| Timeline.CurrIdx | src/components/StatusTimeline.tsx:17 | the index is 4 exactly for `complete`, the step's position for a step id, and -1 exactly for any other id |
| Timeline.IndexAgrees | src/components/StatusTimeline.tsx:17 | the timeline's `findIndex` and the viewer's `indexOf` agree on every id |
| Timeline.IdleIsUnknown | src/components/StatusTimeline.tsx:17 | the app's initial `idle` step has index -1 |
| Timeline.StepStatusMeaning | src/components/StatusTimeline.tsx:19-20 | a step is complete, in progress or pending exactly when it is before, at or after the current index |
| Timeline.AtMostOneInProgress | src/components/StatusTimeline.tsx:17-20 | no two steps are in progress, and the one that is has the current id |
| Timeline.CompletedBeforeCurrent | src/components/StatusTimeline.tsx:17-20 | with the current step at position k, exactly k steps are complete and exactly one is in progress |
| Timeline.CompleteMeansAllComplete | src/components/StatusTimeline.tsx:17-20 | `complete` draws all four steps and all three connectors complete |
| Timeline.UnknownMeansAllPending | src/components/StatusTimeline.tsx:17-20 | an id that is no step draws all four steps and all three connectors pending |
| Timeline.ViewerUpdateKeepsCompleted | src/components/StatusTimeline.tsx:17-20 | with the viewer's step update, a step drawn complete stays complete |
| Timeline.Connectors | src/components/StatusTimeline.tsx:38-44 | exactly three connectors are drawn |
| Timeline.ConnectorsFollowSteps | src/components/StatusTimeline.tsx:38-44 | each connector has the status of the step before it |
| Timeline.StepIdsDistinct | src/components/StatusTimeline.tsx:8-13 | no two steps of the table share an id |
| Timeline.SameStepOrder | src/components/StatusTimeline.tsx:8-13 | the timeline's step ids are the viewer's step list, in the same order |

## Left out

- The clock (`get_current_utc_datetime`, backend/utils.py:14-18) is left out. The prompts that carry its reading are left out with it.
- The language-model calls and the Tavily client are oracle functions, fields of `Graph.Oracles` and `Utils.SearchProvider`. Structured-output decoding, tracing and `asyncio.gather` are not modelled. Gathering is taken to keep the order of the calls.
- The oracles are total. In the code an exception from any `invoke`/`ainvoke` call or Tavily search (backend/graph.py:92, 117, 182, 255, 320; backend/utils.py:70-85) is not caught and ends the run with no report. Oracle failures and their propagation are not modelled.
- backend/prompts.py is template text and is not part of this model.
- LangGraph runs the tasks of a wave in parallel. The model runs each wave one task after another, in plan order, merging each output as it finishes. `Graph.CompileOrderFree` and `Graph.FinishedContentsOrderFree` show that, with distinct names, `compile_report` gives the same result for any order of the same finished list. The research wave's merge order does matter elsewhere: it fixes `finished_sections_str`, which the introduction and conclusion writers read. The framework's actual merge order is not modelled, so the direct sections are modelled as written from the plan-order text.
- The framework's behaviour when a wave has no task is not modelled.
- The commented-out grading loop (backend/graph.py:263-286) and backend/config.py are not modelled.
- backend/main.py is left out: environment set-up and console I/O.
- The UI files are rendering and are not part of this model:
  - src/App.tsx;
  - SearchForm.tsx, ThemeToggle.tsx and TableOfContents.tsx;
  - the heading markup. `Viewer.TocItemsShape` states `id == Slug(title)` for the table of contents. The heading renderers (src/components/ReportViewer.tsx:125-137) slug `children[0]`, which is the trimmed title only for a plain-text heading; the ids of headings with inline markup are not modelled;
  - the PDF export;
  - the `EventSource` connection.
- The SSE error listener (src/components/ReportViewer.tsx:71-78) and the effect's clean-up (80-82) are left out. They only close the stream and set an error message.
- `Viewer.Lower`, `Viewer.KeepWordAndSpace`: `toLowerCase`, `\w` and `\s` are modelled on ASCII plus the JavaScript whitespace characters, with no Unicode case mapping.
- Tavily's `score` and `response_time` fields are not used by the code and are not modelled.
- `Graph.CompileReport`: the finished list and the plan hold the same Python `Section` objects, so the writers' in-place updates are visible through both. The model copies values instead. Every planned section is written and merged, so the compiled contents are the same.
- `State.Section`: the pydantic field declarations (backend/state.py:5-17) are a datatype with exactly those four fields. Validation of field types is not modelled.
