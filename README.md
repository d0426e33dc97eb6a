# lonai research assistant — a Dafny model of its deterministic core

lonai is a command-line research assistant. It hands a user's question to an
LLM agent that can search the web, then saves, lists and exports the answers.
Most of the program is glue around the agent framework, the search service and
the file system. This project models the rules that sit inside that glue, and
proves what they promise:

- **Query and file-name checks** (`Validators`): the API-key presence check,
  the query validator and the file-name sanitiser.
- **Report export** (`Export`): the safe title and the file name per format.
  It also covers the markdown header with its metadata section, the HTML
  newline rewrite, the line-by-line markdown-to-HTML converter, and the JSON
  record.
- **Research store** (`Storage`): a `StorageManager` class over a directory.
  The directory is a map from file name to entry, plus the file order by
  modification time. The class saves, loads, lists (with a limit), searches by
  keyword and deletes.
- **Search cache** (`Search`): a `SearchTool` class whose cache is keyed by
  the call's arguments, over a search client given as a function.
- **Agent result handling** (`Agent`): which message's text becomes the
  response, and the shape of a research result and of batch research. It also
  covers which API key reaches the model.
- **Prompts** (`Prompts`): prompt selection by language, appending extra
  instructions, and the table of named custom prompts.
- **Settings** (`Settings`): flattening a parsed YAML configuration,
  resolving relative paths, and the numeric bounds of the settings.
- **Command-line rules** (`Commands`):
  - the exit decisions of `research`, `batch` and `chat`;
  - Chinese auto-detection and batch-file query extraction;
  - the batch summary, chat input classification and the chat loop;
  - API-key masking in `config`.

`Text` holds the string functions the modules share. It defines Python's
`str.strip` whitespace set, `find`, `replace`, `split`/`join` on one
character, slices with negative bounds, and `str(int)`.

Time, the file system, the network and the agent are parameters:
- a `Clock` value carries the timestamps one operation reads;
- the search client and the agent are functions from request to outcome;
- the directory is the state of `StorageManager`.

Python's Unicode tables are function parameters too: `str.isalnum`,
`str.lower` and `str.title` become `isAlnum`, `lower` and `titleCase`.

## Model

| member | source | states |
|---|---|---|
| Validators.ValidateApiKeys | src/lonai/utils/validators.py:19-51 | Passes iff the Tavily key and at least one of the four agent keys are set. Otherwise the message is the missing-Tavily line, the missing-agent block, or both joined by a newline in that order. |
| Validators.ValidateQuery | src/lonai/utils/validators.py:83-105 | Accepted iff the stripped query is non-empty and its length lies in [min, max]. "Empty" iff the query is all whitespace, whatever the bounds. "Too short" iff the stripped query is non-empty and shorter than min. "Too long" iff it is not too short and longer than max. Defaults are 3 and 500. |
| Validators.ReplaceInvalidChars | src/lonai/utils/validators.py:119 | Same length; each of `<>:"/\|?*` becomes `_`, every other character is kept in place. |
| Validators.CollapseUnderscores | src/lonai/utils/validators.py:125 | Never longer, keeps the first character, adds no new character, and leaves no two underscores in a row. `CollapseDouble` and `CollapseIdentity` pin down the rest. |
| Validators.CollapseIdentity | src/lonai/utils/validators.py:125 | A string without a double underscore is left unchanged. |
| Validators.CollapseDouble | src/lonai/utils/validators.py:125 | Two underscores in a row collapse exactly like one, wherever they stand. With `CollapseIdentity`, every run of underscores becomes a single `_`, and every other character keeps its place and order. |
| Validators.TruncateIfLonger | src/lonai/utils/validators.py:128-129 | The result is a prefix of the input. For max_length ≥ 0 its length is min(\|s\|, max_length). For a negative max_length, as `s[:max_length]`, the last -max_length characters are dropped. |
| Validators.SubstitutionsClean | src/lonai/utils/validators.py:119-125 | After the three substitutions there is no invalid character, no space and no double underscore. |
| Validators.TruncateClean | src/lonai/utils/validators.py:128-129 | Truncation keeps a clean string clean. |
| Validators.StripClean | src/lonai/utils/validators.py:132 | Stripping underscores keeps a clean string clean. |
| Validators.SanitizeStepsClean | src/lonai/utils/validators.py:119-132 | The steps before the fallback leave a clean string. |
| Validators.SanitizeStepsEnds | src/lonai/utils/validators.py:132 | The steps before the fallback leave no leading or trailing underscore. |
| Validators.SanitizeFilenameClean | src/lonai/utils/validators.py:119-134 | The sanitised name is non-empty and has no invalid character, space or double underscore. It has no leading or trailing underscore. |
| Validators.SanitizeFilenameLength | src/lonai/utils/validators.py:127-134 | For max_length ≥ 0 the name is at most max_length long, or is exactly "unnamed". |
| Validators.SubstitutedClean | src/lonai/utils/validators.py:119-125 | The substitutions leave a clean string unchanged. |
| Validators.SanitizeStepsFixed | src/lonai/utils/validators.py:119-132 | A clean name that fits the bound and has no underscore at either end passes every step unchanged. |
| Validators.SanitizeFilenameIdempotent | src/lonai/utils/validators.py:108-134 | For max_length ≥ 7, sanitising a sanitised name changes nothing. |
| Validators.SanitizeFilename | src/lonai/utils/validators.py:108-134 | The name is never empty ("unnamed" replaces an empty result). `SanitizeFilenameClean`, `SanitizeFilenameLength` and `SanitizeFilenameIdempotent` state the rest. |
| Export.KeepSafeChars | src/lonai/tools/export.py:46 | Same length; alphanumerics, spaces and underscores are kept, every other character becomes `_`. |
| Export.SafeTitle | src/lonai/tools/export.py:46-47 | Length is min(\|title\|, 50). Character i is the title's own when it is alphanumeric and not a space, `_` otherwise. The result holds only alphanumerics and `_`. |
| Export.ExportFilename | src/lonai/tools/export.py:66 | `{stamp}_{safe_title}{extension}`. `ExportFilenameShape` states its parts and that the formats never share a name. |
| Export.ExportFilenameShape | src/lonai/tools/export.py:45-56 | The file name is the timestamp, `_`, the safe title, then `.md`, `.html` or `.json` by format. Two formats never give the same name. |
| Export.MetadataSection | src/lonai/tools/export.py:73-77 | The metadata section is present iff the metadata is non-empty. |
| Export.MarkdownHeader | src/lonai/tools/export.py:69-77 | Starts with `# `. It ends with the metadata section, which is empty when there is no metadata. |
| Export.MarkdownDocument | src/lonai/tools/export.py:70-79 | The document starts with `# ` and ends with the content, unchanged. |
| Export.MetadataLinesJoin | src/lonai/tools/export.py:75-76 | The metadata lines are the `- **key**: value` lines, one per entry in order, each ended by a newline. |
| Export.MetadataLinesSplit | src/lonai/tools/export.py:75-76 | With no newline inside keys or values, the section splits into exactly one `- **key**: value` line per entry, in order. |
| Export.AppendMetadataLines | src/lonai/tools/export.py:75-76 | The loop appends exactly the metadata lines of all entries to the header. |
| Export.ExportMarkdown | src/lonai/tools/export.py:58-90 | The file name is `{stamp}_{safe_title}.md`. The accumulated text is the markdown document: header, optional metadata section, content. |
| Export.WithBreaks | src/lonai/tools/export.py:105 | Same number of lines; every line but the last gains `<br>`. |
| Export.BreakNewlinesJoin | src/lonai/tools/export.py:105 | Rewriting newlines in joined lines is joining the lines with `<br>` added. |
| Export.BreakNewlinesLines | src/lonai/tools/export.py:105 | After the rewrite the text has the same lines, and every line but the last ends in `<br>`. |
| Export.ConvertHeading | src/lonai/tools/export.py:244-249 | `### `, `## ` and `# ` are tried in that order and exclude one another. A heading line loses its prefix and is wrapped in h3, h2 or h1. |
| Export.EmboldenShape | src/lonai/tools/export.py:251-253 | The first `**` becomes `<strong>` and the next one, if any, `</strong>`. All other text, later `**` included, is untouched. |
| Export.ConvertBold | src/lonai/tools/export.py:250-253 | A non-heading line holding `**` takes the bold rewrite. |
| Export.ConvertListItem | src/lonai/tools/export.py:254-256 | A line without `**` whose stripped form starts with `- ` becomes `<li>` around the stripped text after `- `. |
| Export.ConvertPlain | src/lonai/tools/export.py:257-258 | Any other line is returned unchanged. |
| Export.ConvertLine | src/lonai/tools/export.py:242-258 | The per-line conversion. `ConvertHeading`, `ConvertBold`, `ConvertListItem` and `ConvertPlain` state each branch, and `ConvertLineOneLine` states that no line break is added. |
| Export.ConvertLineOneLine | src/lonai/tools/export.py:242-258 | Converting a line never introduces a line break. |
| Export.ConvertLinesSplit | src/lonai/tools/export.py:260 | Joining the converted lines with newlines and splitting again gives them back. |
| Export.MarkdownToHtml | src/lonai/tools/export.py:229-260 | The output has as many lines as the input, and its i-th line is the conversion of the i-th input line. |
| Export.MetadataHtml | src/lonai/tools/export.py:109-114 | The HTML metadata block is present iff the metadata is non-empty. |
| Export.RenderMetadataHtml | src/lonai/tools/export.py:109-114 | The loop builds exactly the metadata block: one `<li><strong>key:</strong> value</li>` per entry, in order. |
| Export.HtmlDocument | src/lonai/tools/export.py:117-183 | The page template with the title twice, the display time, the metadata block and the body filled in. `ExportHtml` states what fills each slot. |
| Export.ExportHtml | src/lonai/tools/export.py:92-195 | The file name is `{stamp}_{safe_title}.html`. The page is the template around the title, the display time, the metadata block and the converted body. |
| Export.JsonReport | src/lonai/tools/export.py:211-216 | The record holds the title and content verbatim and the ISO time. Its metadata is the given metadata, or empty when there is none. |
| Export.Export | src/lonai/tools/export.py:27-56 | Dispatch on format. The file name is the timestamp, `_`, the safe title and the extension. The document is the markdown document, the HTML page or the JSON record. |
| Storage.Limited | src/lonai/tools/storage.py:109-110 | A limit cuts the list only when truthy. A positive limit keeps the first `limit` names (all of them when fewer). A negative limit drops the last `-limit` names. None or 0 returns every name. |
| Storage.SummariesRows | src/lonai/tools/storage.py:112-128 | Each row comes from a readable record among the names. Its query and timestamp are copied as they are (any JSON value) and default to "". Every readable record among the names has its row. |
| Storage.SummariesAppend | src/lonai/tools/storage.py:113-126 | Rows keep file order: the rows of `a + b` are the rows of `a` then the rows of `b`. |
| Storage.Listing | src/lonai/tools/storage.py:94-128 | `list_research(limit)` as a function. `ListingRows`, `ListingComplete` and `SaveThenListFirst` state its rows and order. |
| Storage.ListingRows | src/lonai/tools/storage.py:94-128 | A listing equals `NewestRows`, read off the file order newest first. It takes every `.json` name for a falsy limit, the first `limit` for a positive one, and all but the last `-limit` for a negative one. Each taken name that is a readable record gives a row, in that order. It has at most `limit` rows when the limit is positive. Every row is a readable `.json` file of the directory. |
| Storage.NewestRowsTake | src/lonai/tools/storage.py:103-128 | The rows of the first `count` `.json` names of the order, in order, are exactly `NewestRows`. This is the reference that walks the files from the newest. |
| Storage.ListingComplete | src/lonai/tools/storage.py:103-128 | Without a limit, every readable `.json` file is listed. |
| Storage.SearchResults | src/lonai/tools/storage.py:130-145 | `search_research` as a function over the full listing. `SearchResultsIff` states its outcome. |
| Storage.SearchResultsIff | src/lonai/tools/storage.py:139-145 | The search raises (AttributeError from `.lower()`) iff some listed query is not a string. Otherwise a row is found iff it is in the full listing and its lower-cased string query contains the lower-cased keyword. |
| Storage.StorageManager.constructor | src/lonai/tools/storage.py:15-25 | The manager starts on the given directory and flag. |
| Storage.StorageManager.LoadResearch | src/lonai/tools/storage.py:68-92 | Returns the stored entry iff the file exists and is valid JSON; None otherwise. |
| Storage.StorageManager.SaveResearch | src/lonai/tools/storage.py:27-66 | Writes exactly one entry under `{stamp}_{safe_query}.json`, overwriting any file of that name. The record holds the query, ISO time, results and metadata (empty by default). That file becomes the newest, other files are unchanged, and loading it returns the record. |
| Storage.SavedConsistent | src/lonai/tools/storage.py:47-62 | A save keeps the directory consistent: every file is named once in the order, and the order names exactly the files. |
| Storage.StorageManager.ListResearch | src/lonai/tools/storage.py:94-128 | The loop returns the listing: newest `.json` files first, cut to a truthy limit, unreadable files skipped. |
| Storage.StorageManager.SearchResearch | src/lonai/tools/storage.py:130-145 | The comprehension raises at the first listed query that is not a string. Otherwise it returns, in listing order, exactly the rows whose lower-cased query contains the lower-cased keyword. |
| Storage.StorageManager.DeleteResearch | src/lonai/tools/storage.py:147-168 | Returns true iff the file existed. Afterwards it is gone and does not load. Other files are unchanged; on false nothing changes. |
| Storage.SaveThenListFirst | src/lonai/tools/storage.py:103-107 | After a save, the saved record is the first row of any listing whose limit lets a row through. |
| Storage.DeleteThenLoad | src/lonai/tools/storage.py:156-165 | After a delete the directory stays consistent and holds every other file, but not that one. |
| Storage.WithoutAbsent | src/lonai/tools/storage.py:163-165 | Deleting a name that is not there leaves the file order unchanged. |
| Search.EffectiveMaxResults | src/lonai/tools/search.py:63 | The request carries the given count, or the instance default when the count is None or 0. |
| Search.CacheKey | src/lonai/tools/search.py:51 | `f"{query}:{topic}:{max_results}:{include_raw_content}"`. `CacheKeyInjective` states that distinct calls get distinct keys. |
| Search.CacheKeyInjective | src/lonai/tools/search.py:51 | Different argument tuples have different cache keys, even when the query holds colons. |
| Search.NoneAndZeroShareRequest | src/lonai/tools/search.py:51-66 | A missing and a zero count send the same request, under different cache keys. |
| Search.SearchTool.constructor | src/lonai/tools/search.py:16-25 | A new tool has the given default count and an empty cache. |
| Search.SearchTool.Search | src/lonai/tools/search.py:28-80 | On a hit: the cached answer, nothing sent, cache unchanged. On a miss: exactly one request with the effective count. A success is cached under its key and nothing else changes. A failure gives {query, error} and leaves the cache as it was. |
| Search.SearchTool.ClearCache | src/lonai/tools/search.py:82-85 | The cache is empty afterwards. |
| Search.RepeatIsCached | src/lonai/tools/search.py:51-56 | After an answered call, the same call sends nothing and returns the same answer, whatever the service would now say. |
| Agent.AnswerText | src/lonai/core/agent.py:194-200 | An answering message contributes its content when non-empty, else its reasoning text; never "". |
| Agent.LastAnswer | src/lonai/core/agent.py:192-200 | Finds the answering AI message nearest the end: no later message answers, and none at all when the result is None. |
| Agent.ChosenResponse | src/lonai/core/agent.py:190-204 | The response `research` reports. `ExtractResponse`, `TrailingMessagesIgnored` and `FallbackToLast` state which message it comes from. |
| Agent.ExtractResponse | src/lonai/core/agent.py:190-204 | The backward scan with `break` yields the chosen response. That is the text of the last answering AI message; failing that, the last message's content; failing that, "". |
| Agent.TrailingMessagesIgnored | src/lonai/core/agent.py:192-200 | Non-answering messages after an answer do not change the response. |
| Agent.FallbackToLast | src/lonai/core/agent.py:203-204 | With no answering message, the response is the last message's content, whatever its type. |
| Agent.ResolveApiKey | src/lonai/core/agent.py:95-102 | The generic agent key wins when truthy. Otherwise anthropic, openai and google use their own key, and custom keeps the generic one. |
| Agent.ModelApiKey | src/lonai/core/agent.py:108-134 | OpenAI and custom models get the resolved key when it is truthy, and "dummy" otherwise. Anthropic and Google get the resolved key. |
| Agent.AgentKeyWins | src/lonai/core/agent.py:95-102 | A set generic key reaches every provider's model. |
| Agent.OpenAIKeyReachesModel | src/lonai/core/agent.py:95-125 | Without a generic key, a set OpenAI key is the key the OpenAI model gets. |
| Agent.CustomWithoutKey | src/lonai/core/agent.py:117-125 | A custom provider without a generic key gets "dummy". |
| Agent.ResearchAgent.constructor | src/lonai/core/agent.py:25-55 | The agent keeps its language, export settings, store and agent function. |
| Agent.ResearchAgent.Research | src/lonai/core/agent.py:139-235 | A raising agent call propagates and nothing is saved. Otherwise the result holds the query and the chosen response. It has a saved path iff saving was asked and a report path iff export was. The save writes the record (query, ISO time, response, language as metadata) under the time-stamped name, makes it the newest file, leaves the other files as they were, and loads back. Without saving, the saved records are unchanged (the debug dump is left out). |
| Agent.ResearchAgent.ResearchEntry | src/lonai/core/agent.py:256-268 | One batch turn, without export. The entry is an error iff the agent call raised, carrying its message. Otherwise it is the research result, with no report path. With saving, the directory afterwards is `AfterResearch` of the one before: the record is saved iff the agent call returned. |
| Agent.ResearchAgent.BatchResearch | src/lonai/core/agent.py:237-271 | One entry per query, in order, each carrying its query. A failing query gives {query, error} and later queries still run. No entry has a report. With saving, the directory afterwards is `AfterEach`: every answered query saved in turn, each at its own time reading. Without saving nothing changes. |
| Agent.AfterEachKeeps | src/lonai/core/agent.py:237-271 | After a batch with saving, a file that no answered query saves to holds what it held before, or is still absent. |
| Agent.AfterEachSaves | src/lonai/core/agent.py:237-271 | After a batch with saving, every answered query's record is in the directory under its time-stamped name, unless a later answered query saved to the same name. |
| Agent.DistinctStampsDistinctFiles | src/lonai/tools/storage.py:43-47 | Two time stamps of the same length that differ give two different file names for the same query. |
| Agent.RepeatedQueryKeepsBoth | src/lonai/core/agent.py:237-271 | A batch that asks one query twice, at two different seconds, keeps both records, each with its own ISO time. |
| Prompts.LanguageOf | src/lonai/core/prompts.py:158-161 | "zh" selects Chinese, every other code English. |
| Prompts.WithInstructions | src/lonai/core/prompts.py:163-166 | Truthy instructions give the base, the "Additional Instructions" heading, then the instructions. None or "" gives the base unchanged. |
| Prompts.LanguagesDiffer | src/lonai/core/prompts.py:10-138 | For every prompt kind the English and Chinese texts differ. |
| Prompts.PromptManager.constructor | src/lonai/core/prompts.py:140-147 | A new manager has its language and no custom prompts. |
| Prompts.PromptManager.BaseResearchPrompt | src/lonai/core/prompts.py:158-161 | The Chinese research prompt for "zh", the English one otherwise. |
| Prompts.PromptManager.GetResearchPrompt | src/lonai/core/prompts.py:149-166 | The language's research prompt, with the custom instructions appended when truthy. |
| Prompts.PromptManager.GetAnalysisPrompt | src/lonai/core/prompts.py:168-173 | The Chinese analysis prompt for "zh", the English one otherwise. |
| Prompts.PromptManager.GetSummaryPrompt | src/lonai/core/prompts.py:175-180 | The Chinese summary prompt for "zh", the English one otherwise. |
| Prompts.PromptManager.ResearchPromptLanguage | src/lonai/core/prompts.py:158-161 | The research prompt is the Chinese text iff the language is "zh", and the English text iff it is not. |
| Prompts.PromptManager.OtherPromptsLanguage | src/lonai/core/prompts.py:168-180 | The analysis and summary prompts are Chinese iff the language is "zh". |
| Prompts.PromptManager.AddCustomPrompt | src/lonai/core/prompts.py:182-189 | Adds or overwrites that one name, which then returns the prompt; every other name returns what it did before. |
| Prompts.PromptManager.GetCustomPrompt | src/lonai/core/prompts.py:191-200 | The prompt stored under the name, or None when it was never added. |
| Settings.ApplyToAppend | src/lonai/config/settings.py:178-184 | Assigning one list of writes and then another is assigning their concatenation. |
| Settings.Writes | src/lonai/config/settings.py:178-184 | The assignments of a document in iteration order. `WritesHoldSection`, `WritesHoldTopLevel` and `FlattenedEntries` state what they assign. |
| Settings.Apply | src/lonai/config/settings.py:176-184 | The dict the assignments build. `ApplyKeys` and `ApplyLastWins` state its keys and values. |
| Settings.ApplyKeys | src/lonai/config/settings.py:178-184 | The flattened dict holds exactly the names assigned. |
| Settings.ApplyLastWins | src/lonai/config/settings.py:178-184 | Each name holds the value of its last assignment in iteration order. |
| Settings.AssignSection | src/lonai/config/settings.py:179-184 | The inner loop assigns each entry of a mapping section as "section_key", in order. Any other value is assigned under its own name. |
| Settings.FromYaml | src/lonai/config/settings.py:158-187 | A missing file or a falsy document gives an empty config. Falsy means null, false, 0, 0.0, an empty string, an empty list or an empty mapping. A mapping is flattened one level by the nested loops. Any other truthy document fails. |
| Settings.WritesHoldSection | src/lonai/config/settings.py:178-182 | Every nested entry is written under "section_key" with its value as is, so a nested mapping stays a value. |
| Settings.WritesHoldTopLevel | src/lonai/config/settings.py:183-184 | Every non-mapping top-level value is written under its own name. |
| Settings.FlattenedEntries | src/lonai/config/settings.py:176-184 | Without name collisions, each nested entry is found under "section_key" and each other top-level value under its own name. |
| Settings.ResolvePath | src/lonai/config/settings.py:136-149 | None passes through, an absolute path is kept, and a relative one is placed under the project root. |
| Settings.ResolvePathIdempotent | src/lonai/config/settings.py:140-145 | With an absolute project root every resolved path is absolute, so resolving twice is resolving once. |
| Settings.Violations | src/lonai/config/settings.py:56-91 | Names exactly the fields out of bounds: temperature outside [0, 2], max tokens ≤ 0, search results outside 1..10, cache TTL ≤ 0. |
| Settings.ValidIffNoViolation | src/lonai/config/settings.py:56-91 | Settings are valid iff no field is out of bounds, and the defaults are valid. |
| Commands.HasCjk | src/lonai/cli/commands.py:87 | True iff some character lies in U+4E00..U+9FFF. |
| Commands.DetectLanguage | src/lonai/cli/commands.py:86-88 | "en" becomes "zh" iff the query holds a CJK ideograph. Any other language, "zh" included, is kept. |
| Commands.GivenQuery | src/lonai/cli/commands.py:71-73 | The query argument when truthy, otherwise the prompted one. `ResearchStart` states how it is checked. |
| Commands.ResearchStart | src/lonai/cli/commands.py:65-88 | Missing keys exit 1 with the key message before the query is looked at. An invalid query exits 1 with "Invalid query: …". Otherwise the command proceeds with the given or prompted query (3 to 500 stripped characters) and the detected language. |
| Commands.ResearchCommand | src/lonai/cli/commands.py:48-123 | Early exits change nothing. A failing agent call exits 1 with "Research failed: …" and saves nothing. Otherwise it shows the result for the query in the detected language, with saved and report paths as asked. A save writes the record under the time-stamped name, makes it the newest file, leaves the other files as they were, and loads back. Without saving nothing changes. |
| Commands.NonBlank | src/lonai/cli/commands.py:148 | No more queries than lines, and none empty. |
| Commands.NonBlankMembers | src/lonai/cli/commands.py:148 | Every query is a stripped line, and every line that is not blank gives a query. |
| Commands.NonBlankAppend | src/lonai/cli/commands.py:148 | Extraction works line by line and keeps file order. |
| Commands.NonBlankIdentity | src/lonai/cli/commands.py:148 | Lines that are already stripped and non-empty pass through unchanged. |
| Commands.FileLines | src/lonai/cli/commands.py:147-148 | Iterating the file yields lines split at "\n", "\r" and "\r\n". `BatchQueriesRoundTrip` and `TwoQueryFile` use it. |
| Commands.BatchQueries | src/lonai/cli/commands.py:146-148 | The stripped non-blank lines of the file, in order. `BatchQueriesStripped` and `BatchQueriesRoundTrip` state it. |
| Commands.BatchQueriesStripped | src/lonai/cli/commands.py:146-148 | Every batch query is non-empty and has no surrounding whitespace. |
| Commands.BatchQueriesRoundTrip | src/lonai/cli/commands.py:146-148 | A file holding one stripped query per line gives back exactly those queries. |
| Commands.Summarize | src/lonai/cli/commands.py:179-183 | An entry with an error is a failure line with its message; every other entry is a success line. Both carry the query. |
| Commands.FirstRaised | src/lonai/cli/commands.py:166-173 | The position of the first query whose agent call raises. None iff every call succeeds. |
| Commands.BatchCommandAsWritten | src/lonai/cli/commands.py:130-190 | Missing keys exit 1, and no queries exit 0 with "No queries found in file.". Otherwise, if every agent call succeeds, every query gets a success line. If not, the first failing query ends the command with exit 1 and "Batch research failed: …". With saving, the directory afterwards is `SavedUntilFailure`: the queries saved in turn up to the first failing one. |
| Commands.FailingFirstQueryStopsBatch | src/lonai/cli/commands.py:146-173 | For the file "a\nb" with an agent that raises on "a": the queries are "a" and "b", and "a" is the first failing query. The as-written batch therefore exits 1 before "b" runs. |
| Commands.TwoQueryFile | src/lonai/cli/commands.py:146-148 | The file "a\nb" holds exactly the queries "a" and "b". |
| Commands.ResearchEachAsWritten | src/lonai/cli/commands.py:166-173 | The loop as written: success lines for all queries, or the error of the first failing query. With saving, the directory afterwards is `SavedUntilFailure`; without, nothing changes. |
| Commands.SavedUntilFailureIsPrefix | src/lonai/cli/commands.py:166-173 | The loop as written saves what the corrected batch saves when no agent call raises, and otherwise what it saves for the queries before the first failing one. |
| Commands.ResearchWithoutExport | src/lonai/cli/commands.py:170 | One `research` call without export: fails iff the agent call raises, with its message; otherwise carries its query and the chosen response. With saving, the directory afterwards is `AfterResearch` of the one before. |
| Commands.BatchCommand | src/lonai/cli/commands.py:139-190 | Corrected batch: the same early exits. Then one summary line per query, in order, each carrying its query. A line is a failure iff that query's agent call raised, with its message. With saving, the directory afterwards is `AfterEach` over all the queries, each at its own time reading. |
| Commands.Classify | src/lonai/cli/commands.py:251-269 | Empty input is ignored. Lower-cased exit/quit/q quits and lower-cased "help" shows help. Otherwise an invalid query gives "Invalid query: …". Only a valid query (3 to 500 stripped characters) is researched, as typed. |
| Commands.Classified | src/lonai/cli/commands.py:249-269 | Each input line is classified, in order. |
| Commands.Session | src/lonai/cli/commands.py:247-286 | At most one response per input. A failing agent call ends the session with exit 1. Running out of input does too: the prompt raises EOFError and the outer handler reports "Chat session failed: EOF when reading a line". |
| Commands.SessionIgnoresAfterQuit | src/lonai/cli/commands.py:254-256 | Nothing after a quit word is looked at. |
| Commands.SessionWithoutQueries | src/lonai/cli/commands.py:247-269 | Without a valid query nothing is researched or saved. The session ends with goodbye iff a quit word is typed. Otherwise the input runs out and the session fails with exit 1 and the EOFError message. |
| Commands.RunSession | src/lonai/cli/commands.py:247-286 | The `while True` loop runs exactly the session `Session` describes. The directory afterwards is `SessionSaves`: every answered query up to the end of the session saved in turn, each at the time its input was read. |
| Commands.ChatCommand | src/lonai/cli/commands.py:227-286 | Missing keys exit 1 before the session and change nothing. Otherwise the transcript is the session over the classified inputs, and the directory afterwards is `SessionSaves` of those inputs. |
| Commands.MaskKey | src/lonai/cli/commands.py:314-318 | A set key shows as "***" and its last four characters (the whole key when shorter). A missing or empty key shows "Not set". |
| Commands.MaskShowsOnlyTail | src/lonai/cli/commands.py:314-318 | Keys that end in the same four characters are shown alike. |

## Left out

- File and directory I/O is not modelled: reading, writing and creating files and directories, `glob` and `unlink`. The research directory is the `files` map of `StorageManager`, and the export and save operations return the name and content of the file they would write. The failure branches of these calls (log, then re-raise or return None/False) are not modelled.
- The order of files by modification time is state (`order`): a save makes its file the newest. Clocks that run backwards and equal modification times are not modelled.
- `Storage.PathIn`: joins the data directory and the name with one "/". `str(Path(data_dir) / name)` also drops a trailing slash or a "." component of the directory; that normalisation is not modelled.
- `datetime.now()` is the `Clock` parameter. The separate readings of one operation (file name, "Generated" line, ISO time) are given together. A batch and a chat session take one reading per query or per input line, so a query saved twice in different seconds gives two files, and twice in the same second one (the stamp has a resolution of one second).
- The Tavily client is the `client` function of `Search.SearchTool.Search`. Its `get_function_definition` wrapper for the agent is not modelled.
- `Search.SearchTool.Search`: assumes a well-formed payload. In the source the payload is cached (src/lonai/tools/search.py:69) before the logging line counts its results (line 71). A payload that is not a dict, or whose "results" is None, raises there: the error dict is returned while the payload stays cached.
- The LLM agent framework, the LangChain model classes and `create_deep_agent` are the `invoke` function of `ResearchAgent`. `_configure_model` is reduced to the key it passes to the model. The debug dump in `research` (src/lonai/core/agent.py:168-185) is file I/O and is left out. It writes `debug_last_result.txt` into the data directory after every agent call that returns. The modelled directory never holds that file, so `delete_research("debug_last_result.txt")` returns False in the model where the source returns True. It is not a `.json` file, so listing and search are unaffected.
- `ResearchAgent.get_history` and `search_history`, and the `history` command, only forward to `StorageManager.list_research` / `search_research`, which are modelled.
- `str.isalnum`, `str.lower` and `str.title` are the parameters `isAlnum`, `lower` and `titleCase`; their Unicode tables are not modelled.
- YAML parsing, pydantic validation, reading environment variables and `.env`, and the `lru_cache` on `get_settings` are not modelled. Parsed YAML is the `Yaml` datatype, and only the numeric bounds of the settings are stated. Temperature is a `real`.
- `validate_path`, src/lonai/core/backend.py and src/lonai/utils/logging.py are file-system, subprocess and logging code, and are not part of this model.
- Printing, progress bars, interactive prompting and the formatter are not modelled. Prompted input and chat input lines arrive as parameters, and exits are returned as values. The chat input is a finite list, as when standard input is piped. Once it runs out, the prompt raises the EOFError of Python's built-in `input`, and its message is the constant `END_OF_INPUT`. At a terminal, Ctrl-D raises an EOFError with an empty message instead; that case is not modelled.
- KeyboardInterrupt (exit 130, or the chat loop's continue) is not modelled, and neither is the batch command's exit on an unreadable file.
- The `ValueError` branch of `export` is not modelled, because the three formats form a closed datatype.
- `Agent.ResearchAgent.Research`: does not state what export writes to disk, only the report path, because writing the report is file I/O.
- `Commands.ChatCommand` takes the agent as a parameter; the language of the agent the command builds (the default "en") is not modelled.

## Findings

| source | as written | input that shows it | evidently intended | confidence | as-written member | corrected member |
|---|---|---|---|---|---|---|
| src/lonai/cli/commands.py:166-190 | The batch loop calls `agent.research` directly, without catching. The first query whose agent call raises ends the whole command with exit 1, and the later queries never run. The summary's "error" branch (lines 180-181) can never be taken. | A batch file "a\nb" where the agent raises on "a": the command exits 1 and "b" is never researched (`Commands.FailingFirstQueryStopsBatch`). | Every query runs and a failing one gets an error line in the summary, as `batch_research` (src/lonai/core/agent.py:237-271) does. | not executed | Commands.BatchCommandAsWritten | Commands.BatchCommand |
