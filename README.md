# agent-zero in Dafny

agent-zero is a tool-calling agent. A language model is asked for the next
message. The file tools it requests are run inside a sandboxed workspace.
The loop goes on until the model answers without requesting a tool. Around
that loop sit a number of tools: a key/value memory, a resource knowledge
base, a project explorer, a YouTube transcript fetcher, web search and
scraping, a routine planner, and git/zip ingestion.

This project models that core and proves its properties:

- `text.dfy` (module `Text`): the Python string operations the tools use (`join`, `split`, `strip`, `lower`, `replace`, `splitlines` pieces, integer formatting). It also holds `Results`, with `Result` and `Option`.
- `sandbox.dfy` (module `Sandbox`): `_get_safe_path`. The name is joined to the root and normalised lexically over segment lists. The result is accepted when its text starts with the root's text, a character-prefix test as in the code.
- `filesystem.dfy` (module `FileTools`): `write_file`, `read_file` and `list_files` over a file system given as a map from paths to files and directories. `Workspace` is a class whose `entries` field the write updates in place.
- `agent.dfy` (module `Agent`): `reason_node`, `router` and the tool node. `Run` is the compiled two-node graph: a loop over the conversation state with the model as an oracle.
- `memory.dfy` (module `Memory`): the long-term memory as an insertion-ordered dictionary kept in a file (`MemoryStore`).
- `resources.dfy` (module `Resources`): the append-only resource list (`ResourceStore`), the summary rule and the case-insensitive category filter.
- `project.dfy` (module `Project`): `explore_project` as the `os.walk` stack loop over a directory tree, with ignored directories pruned. Also `generate_scrum_report`.
- `media.dfy` (module `Media`): the leftmost-match video-id search and transcript joining.
- `web.dfy` (module `Web`): numbered search results and the scrape clean-up pipeline (`splitlines`, `strip`, `split("  ")`, filter, join, truncate).
- `planner.dfy` (module `Planner`): `create_routine`, a stable sort by deadline followed by two lines per task.
- `github.dfy` (module `GitHub`): `ingest_external_source` (check order, folder creation, classification), `get_repo_history` and `get_file_diffs`.

Library calls are parameters of the members that make them: the language model, DuckDuckGo, httpx with BeautifulSoup, GitPython, zipfile, youtube_transcript_api, dateutil and `float`. The current date is a parameter too. Every parameter is a pure function, so each model is a function of its inputs.

The code has no step ceiling: `router` looks only at the tool calls of the last message (src/agent/graph.py:39-44). `Agent.Run` therefore takes a `fuel` bound and runs at most that many steps. Every run it makes is a trace of steps that follows the graph, the model `llm` and the tools. The snapshot after each step is determined by the snapshot before it: the conversation and the workspace file system.

## Model

| member | source | states |
|---|---|---|
| Sandbox.SafePath | src/tools/filesystem.py:6-13 | An accepted path is the normalised join. A name is accepted exactly when it holds no NUL character and the joined path's text starts with the root's text. A name with NUL fails with the "embedded null character" message of `lstat`; any other rejection carries the "Security Violation" message |
| Sandbox.CurrentDirectoryIsRoot | src/tools/filesystem.py:8-9 | "." and "" resolve to the root itself |
| Sandbox.AbsoluteNameIgnoresRoot | src/tools/filesystem.py:9 | An absolute name replaces the root when joined: the target does not depend on the root |
| Sandbox.SafePathIdempotent | src/tools/filesystem.py:9-13 | Feeding an accepted path back in returns the same path |
| Sandbox.DescendantAccepted | src/tools/filesystem.py:11 | Every target at or under the root is accepted |
| Sandbox.AcceptedIsDescendantOrSibling | src/tools/filesystem.py:11 | Whatever is accepted is under the root, or under a sibling whose name extends the root's last name |
| Sandbox.SiblingAccepted | src/tools/filesystem.py:11 | `../<last><suffix>` is accepted although it is outside the root (the character-prefix test) |
| Sandbox.ClimbOutTarget | src/tools/filesystem.py:9 | From any two-level root, `../../a/b` resolves to `/a/b`: the parent steps climb out of the root |
| Sandbox.EscapeRejected | src/tools/filesystem.py:11-12 | From any two-level root, `../../a/b` (such as `../../etc/passwd` from `/home/ws`) is rejected with the security message when `a` and the root's first segment start with different characters |
| Sandbox.SegmentsExclude | src/tools/filesystem.py:9-11 | The text of a resolved path holds no NUL character |
| FileTools.MakeDirs | src/tools/filesystem.py:20 | `mkdir(parents=True, exist_ok=True)` fails exactly when the directory is an existing file (File exists) or a file lies on the way (Not a directory). On success the directory exists as a directory and every existing entry is kept |
| FileTools.MakeDirsEffect | src/tools/filesystem.py:20 | `mkdir(parents=True, exist_ok=True)` keeps every entry, adds only directories on the way, leaves the directory and its ancestors as directories, keeps the tree well formed |
| FileTools.WriteAtEffect | src/tools/filesystem.py:20-21 | A successful write sets the file, keeps every other existing entry, and adds only its parent directories |
| FileTools.DirectoryTargetUnchanged | src/tools/filesystem.py:20-21 | When the target is an existing directory, creating the parents changes nothing (the write then fails) |
| FileTools.Write | src/tools/filesystem.py:15-24 | A rejected name gives "Failed to write to" with the sandbox error and no change. Any answer other than "Successfully wrote to" leaves the file system as it was, and no entry is ever removed. After a success the resolved path holds a file with the content |
| FileTools.Read | src/tools/filesystem.py:26-35 | A rejected name gives "Failed to read" with the sandbox error. An absent path gives "File X does not exist.". A file gives its content read in universal-newline mode, with "\r\n" and "\r" read as "\n". A directory gives "Failed to read X: " followed by the is-a-directory error ("[Errno 21] Is a directory: '…'") |
| FileTools.FailedTextPrefix | src/tools/filesystem.py:23-24 | Every failure text starts with "Failed to <verb> <name>: " |
| FileTools.WriteNeverRaises | src/tools/filesystem.py:15-24 | `write_file` returns either the success text or a "Failed to write to" text, and a failure leaves the file system unchanged |
| FileTools.WriteThenRead | src/tools/filesystem.py:16-33 | After a successful write, reading the same name gives the content back with its line ends translated to "\n" |
| FileTools.UniversalNewlines | src/tools/filesystem.py:33 | The text `read_text` returns holds no "\r" and is never longer than what was stored |
| FileTools.UniversalNewlinesPlain | src/tools/filesystem.py:33 | Text without "\r" is read back unchanged |
| FileTools.UniversalNewlinesIdempotent | src/tools/filesystem.py:33 | Translating line ends twice is translating them once |
| FileTools.WriteThenReadPlain | src/tools/filesystem.py:16-33 | After a successful write of content without "\r", reading the same name gives exactly the content |
| FileTools.CrLfReadsAsLf | src/tools/filesystem.py:33 | A "\r\n" between two plain texts reads as one "\n" |
| FileTools.WriteCreatesParents | src/tools/filesystem.py:20-21 | After a successful write, every ancestor of the written file is a directory |
| FileTools.WriteTwice | src/tools/filesystem.py:17-21 | The write overwrites: after a successful write, a second write of the same name also succeeds, and its answer and file system are those of writing only the second content |
| FileTools.ReadMissing | src/tools/filesystem.py:31-32 | Reading an accepted name that is absent gives "File X does not exist." |
| FileTools.ChildNames | src/tools/filesystem.py:45 | The names listed are the directory's children, each exactly once |
| FileTools.ListFiles | src/tools/filesystem.py:37-48 | A rejected directory gives the failure text; a non-directory gives "X is not a valid directory."; otherwise "Contents of X: " and the children joined by ", " |
| FileTools.Workspace.WriteFile | src/tools/filesystem.py:15-24 | The new file system and the answer are those of the `write_file` function, and the workspace stays well formed |
| Agent.PromptText | src/agent/graph.py:30-31 | The system text starts with the fixed prompt and ends with the current date |
| Agent.Request | src/agent/graph.py:32 | The request is the system message followed by the conversation, unchanged and in order |
| Agent.ReasonNode | src/agent/graph.py:29-35 | The update is exactly one AI message carrying the model's reply |
| Agent.Router | src/agent/graph.py:39-44 | The route is "tools" exactly when the last message has tool calls |
| Agent.RouterLooksAtLastOnly | src/agent/graph.py:40-44 | The route depends on the last message only |
| Agent.ToolNamed | src/agent/graph.py:10 | A name is a runnable tool exactly when it is one of write_file, read_file, list_files |
| Agent.ListTarget | src/tools/filesystem.py:38 | `list_files` without a directory argument lists "." |
| Agent.RunCall | src/agent/graph.py:52 | One call changes the file system as its tool does, and the answer is that tool's text (or the rejection text for an unknown tool or bad arguments) |
| Agent.ToolsNode | src/agent/graph.py:52 | The calls run in order, each on the file system left by the previous ones; one tool message answers each call by id and name |
| Agent.AfterCalls | src/agent/graph.py:52 | Running tool calls never removes an entry from the file system |
| Agent.AfterCallsWellFormed | src/agent/graph.py:52 | Running any tool calls keeps the file system well formed |
| Agent.ReadOnlyCalls | src/agent/graph.py:52 | Calls that do not write leave the file system as it was |
| Agent.ExchangesAppend | src/agent/graph.py:54-56 | A model message with calls, followed by its answers, extends the finished exchanges |
| Agent.AnswerLast | src/agent/graph.py:52 | The tool node answers the calls of the last message one by one; the new messages and file system are one `tools` step of the graph |
| Agent.FollowsExtend | src/agent/graph.py:54-56 | A trace that follows the graph, extended by one step taken from its last snapshot, still follows the graph |
| Agent.ReasonTurn | src/agent/graph.py:29-35 | A `reason` step appends the model's reply for the conversation so far, leaves the file system alone, and the run ends exactly when the reply has no calls |
| Agent.ToolsTurn | src/agent/graph.py:52-56 | A `tools` step answers the pending calls on the workspace and the run goes back to `reason` |
| Agent.Run | src/agent/graph.py:48-58 | Reason and tools alternate, starting at reason. The input stays a prefix of the conversation. A run has ended exactly when its last step is a reason step and the last message is an AI message without calls, and then every earlier request was answered. The recorded snapshots start at the input and the initial file system and end at the final ones, and each step is what the graph does: a reason step appends `llm`'s reply to the conversation so far, and a tools step appends one answer per call of the last message, each computed on the file system left by the calls before it |
| Memory.Lookup | src/tools/memory.py:44-45 | A key is found exactly when present, and the value found is stored under it |
| Memory.Assign | src/tools/memory.py:35 | `memory[key] = value` keeps the key order: an existing key stays in place, a new key goes last |
| Memory.AssignLookup | src/tools/memory.py:34-36 | After the assignment the key maps to the new value and every other key to its old value |
| Memory.AssignDistinct | src/tools/memory.py:35 | The assignment never duplicates a key |
| Memory.AssignNewKey | src/tools/memory.py:35 | A new key is appended after all existing facts |
| Memory.Load | src/tools/memory.py:13-21 | A missing or unreadable file loads as the empty dictionary |
| Memory.FactLines | src/tools/memory.py:56 | One "k: v" line per fact, in insertion order |
| Memory.ListAll | src/tools/memory.py:52-57 | "Memory is empty." exactly when there is no fact; otherwise the text starts with "Stored facts:\n" |
| Memory.MemoryStore.StoreFact | src/tools/memory.py:31-37 | The file afterwards holds the loaded facts with the key assigned, keys stay distinct, and the answer is "Stored fact: k = v" |
| Memory.MemoryStore.RetrieveFact | src/tools/memory.py:40-46 | "Fact for 'k': v" when the key is stored, "No fact found for 'k'." otherwise; the store is only read |
| Memory.MemoryStore.ListAllFacts | src/tools/memory.py:49-57 | "Memory is empty." exactly when nothing is stored |
| Memory.RetrieveAfterStore | src/tools/memory.py:32-46 | After storing v under k, retrieving k gives v |
| Memory.StoreKeepsOthers | src/tools/memory.py:34-36 | Storing one key leaves what every other key retrieves unchanged |
| Memory.StoreOverwrites | src/tools/memory.py:35 | Storing twice under one key is storing the second value |
| Memory.NothingSavedIsEmpty | src/tools/memory.py:52-54 | A missing or unreadable file lists as "Memory is empty." |
| Memory.ListAfterNewFact | src/tools/memory.py:56-57 | Storing a new key adds its line at the end of the listing |
| Resources.Load | src/tools/resources.py:15-23 | A missing or unreadable file loads as the empty list |
| Resources.Summarize | src/tools/resources.py:46-48 | Content of at most 500 characters is kept as is. Longer content becomes its first 500 characters with newlines as spaces, then "..." (503 characters) |
| Resources.ChooseSummary | src/tools/resources.py:42-48 | A non-empty manual summary is kept verbatim; otherwise the scraped page is summarised |
| Resources.InCategory | src/tools/resources.py:71 | The filter keeps only records whose category matches case-insensitively |
| Resources.InCategoryMembers | src/tools/resources.py:71 | A record is kept exactly when it is stored and its category matches |
| Resources.InCategoryAppend | src/tools/resources.py:71 | The filter keeps stored order: it distributes over concatenation |
| Resources.Blocks | src/tools/resources.py:76-79 | One three-line block per record, in order |
| Resources.Listing | src/tools/resources.py:66-81 | "No resources found." exactly when nothing is stored; when records are selected, the answer starts with the first one's "[category] " |
| Resources.ResourceStore.AddResource | src/tools/resources.py:33-60 | The file afterwards is the loaded records plus exactly one new record at the end (category defaulting to "Uncategorized"), and the answer names category and url |
| Resources.ResourceStore.ListResources | src/tools/resources.py:63-81 | The answer is "No resources found.", the no-match text for the category, or the blocks joined by blank lines |
| Resources.ListAfterAdd | src/tools/resources.py:75-81 | After an addition the full listing is the old listing, a blank line and the new block |
| Resources.CategoryFilterKeepsOrder | src/tools/resources.py:70-73 | A new record whose category matches in any case is listed last under that category |
| Text.Lower | src/tools/resources.py:71 | Lower-casing maps each character and keeps the length |
| Text.ReplaceChar | src/tools/resources.py:47 | `replace` of one character changes exactly its occurrences |
| Text.Strip | src/tools/web.py:49 | The stripped text is a slice of the input with no whitespace at either end |
| Text.Split | src/tools/filesystem.py:9 | Splitting gives at least one piece and no piece holds the separator |
| Text.QuoteFor | src/tools/filesystem.py:24 | `repr` quotes with double quotes exactly when the text holds a single quote and no double quote |
| Text.EscapeChar | src/tools/filesystem.py:24 | A printable character other than the backslash and the quote is shown as itself; every other character is shown by an escape starting with a backslash |
| Text.Repr | src/tools/filesystem.py:24 | `repr` of a text starts and ends with the quote chosen for it and is at least two characters longer |
| Text.ReprPlain | src/tools/filesystem.py:24 | A printable text without a backslash, and without both kinds of quote, is shown unchanged between its quotes |
| Project.IgnoreList | src/tools/project.py:13-22 | No ignore list means the seven default names |
| Project.Indent | src/tools/project.py:38 | The indentation of depth d is 2·d spaces |
| Project.FileLines | src/tools/project.py:41-43 | Each file line is indented at the given depth |
| Project.KeptDirs | src/tools/project.py:30 | The walk descends only into subdirectories whose names are not ignored |
| Project.Outline | src/tools/project.py:28-43 | A directory's outline starts with its own line, "name/" at its depth |
| Project.OutlineIndented | src/tools/project.py:36-43 | Every line under a directory at depth d is indented by at least 2·(d+1) spaces |
| Project.Walk | src/tools/project.py:28-43 | The stack loop of `os.walk` produces exactly the outline of the top directory |
| Project.AppendLines | src/tools/project.py:42-43 | The file lines are appended in order |
| Project.ExploreProject | src/tools/project.py:9-47 | A rejected directory gives "Error exploring project: …". Otherwise the output is "Project Structure:\n" and the outline rooted at the directory's basename at depth 0 |
| Project.PruneEquivalence | src/tools/project.py:30 | Ignoring directories is walking the tree with every ignored subdirectory removed at every depth |
| Project.FilesSurvivePruning | src/tools/project.py:42-43 | Files are never filtered, even when named like an ignored directory |
| Project.GenerateScrumReport | src/tools/project.py:50-73 | The answer is the same fixed text whatever the context |
| Media.GroupAt | src/tools/media.py:11 | A match at a position captures eleven id characters after "v=" or "/" |
| Media.Search | src/tools/media.py:11 | The position found is the leftmost one where the pattern matches |
| Media.ExtractVideoId | src/tools/media.py:11-15 | An extracted id is exactly eleven characters of `[0-9A-Za-z_-]` |
| Media.ExtractVideoIdLeftmost | src/tools/media.py:11 | No id exactly when no position matches; otherwise the id is the first eleven characters at the leftmost match |
| Media.GetYoutubeTranscript | src/tools/media.py:6-25 | No id gives the extraction error; a fetch failure gives "Error fetching YouTube transcript: …"; otherwise the segments joined by spaces |
| Media.NoIdNoFetch | src/tools/media.py:12-13 | Without an id the answer does not depend on the transcript service |
| Media.TranscriptSegments | src/tools/media.py:21 | Segments without spaces can be read back from the transcript |
| Web.HitBlock | src/tools/web.py:20 | The n-th block starts with "n. " |
| Web.NumberedBlocks | src/tools/web.py:18-21 | The hits are numbered consecutively from 1, in the order returned |
| Web.SearchWeb | src/tools/web.py:9-25 | A search error gives "Error searching the web: …", no hits give "No results found for 'q'.", otherwise the header and the numbered blocks joined by blank lines |
| Web.SplitLines | src/tools/web.py:49 | `splitlines` gives no line for empty text and no line holding a line break |
| Web.SplitLinesJoin | src/tools/web.py:49 | For text whose only breaks are single "\n" and that does not end in one, joining the lines gives the text back |
| Web.SplitDoubleSpace | src/tools/web.py:50 | `split("  ")` gives at least one piece (its partner lemma below proves the round trip) |
| Web.SplitDoubleSpaceJoin | src/tools/web.py:50 | Joining the pieces with two spaces gives the line back |
| Web.SplitDoubleSpaceNoBreak | src/tools/web.py:50 | Splitting adds no line break |
| Web.KeepChunks | src/tools/web.py:50-51 | Filtering never adds phrases |
| Web.KeepChunksMembers | src/tools/web.py:50-51 | A text is kept exactly when it is the stripped form of some phrase and is not empty |
| Web.KeepChunksAreChunks | src/tools/web.py:50-51 | Every phrase kept is non-empty, stripped and without a line break |
| Web.ChunksAreChunks | src/tools/web.py:49-51 | Every chunk of the page is non-empty, stripped and without a line break |
| Web.Clean | src/tools/web.py:49-51 | The cleaned text is empty exactly when the page has no non-blank phrase |
| Web.CleanLines | src/tools/web.py:49-51 | Before truncation, the lines of the cleaned text are exactly the chunks, none empty and none with whitespace at either end |
| Web.Truncate | src/tools/web.py:54 | At most 10000 characters, a prefix of the text, the whole text when short enough |
| Web.ScrapeWebsite | src/tools/web.py:28-56 | A fetch error gives "Error scraping the website: …"; otherwise at most 10000 characters, a prefix of the cleaned text |
| Planner.DeadlineOf | src/tools/planner.py:24 | A task without a deadline fails with the key error; otherwise the deadline is parsed |
| Planner.KeyAll | src/tools/planner.py:23-25 | All tasks are keyed in input order with their position; it fails exactly when some task's deadline fails |
| Planner.KeyAllFirstError | src/tools/planner.py:23-25 | The error reported is that of the first failing task |
| Planner.Insert | src/tools/planner.py:23-25 | Insertion adds exactly the one element |
| Planner.InsertOrdered | src/tools/planner.py:23-25 | Inserting a later task after all tasks due no later keeps the order stable |
| Planner.Sort | src/tools/planner.py:23-25 | The sort is a permutation |
| Planner.SortOrdered | src/tools/planner.py:23-25 | The sort orders by deadline and keeps input order among equal deadlines |
| Planner.RoutineOrder | src/tools/planner.py:23-25 | The routine lists every task once, by deadline, stable |
| Planner.TaskLines | src/tools/planner.py:30-39 | Each task that succeeds gives exactly two lines and has a name. A failed hours conversion is its error, found before the missing-name check |
| Planner.TaskDefaults | src/tools/planner.py:32-38 | Without priority or estimate a task is allocated 1.0 hours at medium priority |
| Planner.LinesForShape | src/tools/planner.py:30-39 | Task k's two lines sit at positions 2k and 2k+1 |
| Planner.Routine | src/tools/planner.py:16-45 | A start time that fails to parse is the error, then an end time, then the first failing deadline. A routine has at least two lines, opens with the header and closes with the note |
| Planner.RoutineParts | src/tools/planner.py:27-45 | A routine is the header, the lines of the sorted tasks, and the note |
| Planner.RoutineShape | src/tools/planner.py:27-45 | A routine has 2·n+2 lines, opens with the header, closes with the note, and has each sorted task's two lines in place |
| Planner.WorkingHoursIgnored | src/tools/planner.py:19-20 | Working hours that parse do not affect the routine |
| Planner.MissingDeadlineFails | src/tools/planner.py:23-47 | A task without a deadline, after tasks whose deadlines parse, gives "Error creating routine: 'deadline'" |
| Planner.TaskListing | src/tools/planner.py:30-39 | The loop appends each sorted task's lines in order and stops at the first failure |
| Planner.CreateRoutine | src/tools/planner.py:7-47 | The answer is the routine joined by newlines, or "Error creating routine: …" with the first failure |
| GitHub.Classify | src/tools/github.py:25-41 | Clone exactly for an "http" prefix with a ".git" suffix; otherwise extract exactly for ".zip"; otherwise unsupported |
| GitHub.ZipIsExtracted | src/tools/github.py:25-31 | Every ".zip" source, an http one included, is extracted as a local archive |
| GitHub.GraftEffect | src/tools/github.py:28-37 | Filling the new, empty folder with a clone or an extraction keeps the file system well formed and every entry it had, and adds entries inside the folder only |
| GitHub.Ingest | src/tools/github.py:18-44 | A rejected target gives "Error ingesting source: …" with the sandbox error and no change; an existing target gives the "already exists" error and no change; when creating the folder fails (a file on the way) the answer is "Error ingesting source: " with that error and nothing changes |
| GitHub.IngestConfined | src/tools/github.py:18-44 | Ingestion keeps the file system well formed and every existing entry unchanged. It adds only the target folder, its missing parents and entries inside the folder |
| GitHub.IngestOutsideRefused | src/tools/github.py:18-44 | A target outside the workspace gives "Error ingesting source: …" with the security message, and nothing changes |
| GitHub.IngestExistingRefused | src/tools/github.py:20-21 | An existing target gives the "already exists" error and nothing is created |
| GitHub.IngestLeavesFolder | src/tools/github.py:23-41 | An unsupported source or a missing zip still leaves the new target folder and its parents behind, and nothing else changes |
| GitHub.IngestExtracts | src/tools/github.py:31-38 | A ".zip" source that exists is extracted into the new folder: its entries are placed there with "Successfully extracted zip into <target>", or the extraction's error gives "Error ingesting source: …" and the new folder stays |
| GitHub.IngestClones | src/tools/github.py:25-29 | An http ".git" source is cloned into the new folder; the clone's result or error is the answer |
| GitHub.IngestExternalSource | src/tools/github.py:12-44 | The workspace afterwards and the answer are those of the ingestion function. The workspace stays well formed, every existing entry is kept, and new entries lie on the way to or inside the target folder |
| GitHub.Latest | src/tools/github.py:59 | At most `count` commits, the first ones |
| GitHub.HistoryLines | src/tools/github.py:60-63 | One "[date] author: summary" line per commit, in order |
| GitHub.HistoryBounded | src/tools/github.py:59-63 | The history has at most `count` lines, for the newest commits in order |
| GitHub.HistoryLineFields | src/tools/github.py:62-63 | A history line starts with the bracketed date and ends with the summary |
| GitHub.History | src/tools/github.py:52-67 | A rejected directory or a repository that cannot be opened gives "Error reading git history: …"; a bare repository gives the "Could not find a valid git repository" text; a repository whose commits cannot be read (one with no commit yet) gives "Error reading git history: …" with that error; otherwise the answer is "Recent Activity in <directory>:\n" followed by the lines of the newest `count` commits, newest first, one "[date] author: summary" line each, joined by "\n" |
| GitHub.CommitLines | src/tools/github.py:60-63 | The loop appends one history line per commit, in order |
| GitHub.GetRepoHistory | src/tools/github.py:47-67 | The loop's answer is the one `History` specifies in every case, errors included: on success the "Recent Activity in" header and the history lines |
| GitHub.DiffText | src/tools/github.py:76-81 | An empty diff gives "No uncommitted changes."; otherwise the header, the diff's first 2000 characters (or all of it), and "..." |
| GitHub.GetFileDiffs | src/tools/github.py:70-83 | A rejected directory, a repository that cannot be opened, or a failing `git diff` gives "Error reading diffs: …"; otherwise the diff text |

## Left out

- Symbolic links: `Path.resolve` follows them on the real file system. The model normalises `.` and `..` lexically, as `resolve` does when there are no links.
- The workspace root is given as an already resolved path, not read from the settings.
- The language model, LangGraph's scheduling and `ToolNode` are not modelled as code. The model is the function `llm`. The tool node runs calls one after another; the real `ToolNode` may run them concurrently. Its text for unknown tools and bad arguments is the parameter `reject`.
- Agent.Run: has a `fuel` bound because the code has no step ceiling and termination depends on the model. The fuel stands in for LangGraph's default recursion limit of 25 super-steps, which `app.astream` in tests/integration_test.py:28 leaves unchanged; the `GraphRecursionError` raised at that limit is not modelled, and a run out of fuel simply stops.
- Agent.Run: an exception raised by the model call (src/agent/graph.py:33), such as a network or API error, aborts the real run. The model `llm` always returns a reply, so that path is not modelled.
- Agent.Run: `AgentState` (src/core/state.py:7-15) is a `TypedDict` whose body is `pass`, so as written the state schema has no `messages` key at all. The update `{"messages": [response]}` at src/agent/graph.py:35 and the reads of `state["messages"]` at src/agent/graph.py:32 and 40 have no declared channel to act on. The model follows the evident intent: a `messages` key with LangGraph's `add_messages` reducer, so the messages a node returns are appended to the conversation. What LangGraph does with the key-less schema as written is not modelled.
- The current date, the time of `add_resource` and the date format are parameters given as text.
- JSON encoding, non-dictionary or non-list JSON content, and the non-atomic read-modify-write of the memory and resource files are not modelled. Each file is a value that is missing, unreadable or saved.
- The memory and resource files are kept apart from the workspace file map of the file tools.
- `iterdir` order: the listing order is an oracle, and `ChildNames` proves only that each child appears once.
- FileTools.Read: files hold text only. A file that is not valid UTF-8 makes `read_text` (src/tools/filesystem.py:33) raise a decode error, answered as "Failed to read X: 'utf-8' codec can't decode …"; the model's files cannot hold such bytes. Writing is taken to translate no line ends, as on POSIX systems.
- Text.Lower: maps ASCII letters only, not the full Unicode case mapping of `str.lower`.
- Text.Repr: classifies printability only in the Latin-1 range. Every character above it counts as printable, while Python escapes the non-printable ones among them as `\u` or `\U` codes.
- Web.ScrapeWebsite: the HTTP request, `raise_for_status`, the HTML parsing, the `decompose` loop over scripts and styles, and `get_text` are one oracle `fetch`. The clean-up pipeline after them is modelled.
- Web.SearchWeb: the search library and `max_results` are the oracle `search`.
- Planner.CreateRoutine: dates parse to integers, which stand for the ordered instants of dateutil. Comparing naive and timezone-aware dates (a TypeError in Python) is not modelled. The hours text (`str(float(x))`) and date formatting are oracles.
- GitHub.IngestExternalSource: cloning and extraction are oracles that give the entries they create inside the target folder; only entries strictly inside it whose parents are directories are placed. A failure in them is modelled as leaving the created folder and nothing else. Partial clones or extractions are not modelled.
- GitHub.Latest: a negative `count` is taken as no limit, which is what git's `--max-count` does with it.
- `src/tools/system.py` (a shell command with a timeout) and `src/tools/host.py` (GUI launching) are process and platform I/O and are not part of this model.
- `src/config.py`, `src/main.py`, `src/core/state.py` and `src/core/llm.py` hold no logic beyond configuration and are not part of this model.
