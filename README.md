# ERPNext code-intelligence and migration helpers, modelled in Dafny

This project models the logic around the LLM calls and the syntax-tree walk in a small toolkit. The toolkit:

- analyses the ERPNext Python code base into function, class and call records, and builds a call graph;
- turns function records into retrieval chunks and answers questions about them;
- serves those answers over a small chat API with an in-memory history;
- migrates Python files to Go through an LLM, then cleans and statically checks the generated Go.

Foreign calls become parameters:

- the LLM providers (`Generation.Provider`, a function from prompt to `Success(text)` or `Failure(exception text)`);
- the retriever (`RagQuery.Search`);
- reading a file (`Paths.FileRead`: missing, unreadable, or its text);
- parsing (`Walk.Source`: read error, syntax error, or the sequence of visited nodes);
- the directory listing (a sequence of `Analyzer.Entry`).

Python's string semantics are spelled out in `PyText`:

- `strip` over `str.isspace`;
- `splitlines` with all of its line terminators;
- `replace`, `count`, `in`, `join`, `split()`;
- `str(n)` for a non-negative integer.

Modules, one per source file:

- `Generation`: `llm/safe_generate.py`.
- `GoMigrator`: `migrate/go_migrator.py`, covering the prompt, the sanitizer, the four static checks, `migrate_file`, `fix_with_error` and the saved path.
- `PythonToGo`: `migrate/python_to_go.py`, covering the prompt, Go extraction, both sides of the merge conflict in `convert_python_to_go`, and `save_go_file`'s path.
- `Analyzer`: `Analyzer/analyzer.py`. `analyze_file` is a method of a class holding the three module-level lists. The module-level script runs two scans.
- `FunctionScanner`: the top-level `analyzer.py`.
- `Relationships`: `Analyzer/relationships.py`.
- `Extractor`: `Analyzer/extractor.py`.
- `Chunker`: `rag/chunker.py`.
- `RagQuery`: `rag/rag_query.py`.
- `Api`: `api.py`, with the chat history as a field of `ChatServer`.

Helper modules:

- `Wrappers`: `Option` and `Result`.
- `Sequences`: a generic filter and first-match search.
- `PyText`: Python string operations.
- `Paths`: pathlib name, stem and parent on normalised POSIX path strings.
- `Walk`: abstract syntax-tree nodes, and `ast.walk`'s breadth-first order over a tree.

Points where the code does something other than its names suggest, modelled as the code does it:

- `find_orphans` returns the nodes that are not keys of the adjacency map, i.e. nodes without outgoing calls, not the nodes that nothing calls. The model keeps the code's definition (see Findings).
- The code has a single `fix_with_error` generation call, with no repair loop and no attempt history.
- The Go-migration engine saves under `<project root>/migrations/`. The standalone converter saves under `<parent of the Python file>/migrations/`. Both are modelled as written.

## Model

| member | source | states |
|---|---|---|
| Generation.SafeGenerate | llm/safe_generate.py:4-9 | The primary provider is always called first. Its text is returned when it succeeds, with exactly one call. On any failure the local provider's outcome is returned, with exactly two calls. |
| Generation.FailureMeansBothFailed | llm/safe_generate.py:7-9 | A call fails iff both providers fail, and it then surfaces the local provider's exception (no retry). |
| Generation.FallbackIsTransparent | llm/safe_generate.py:4-9 | A local answer after a primary failure gives the caller the same outcome as a primary that gave that answer. |
| GoMigrator.MigrationPrompt | migrate/go_migrator.py:24-46 | The migration prompt: the fixed rules, then the file path under `Python file:`, then the code between the dashed delimiters. Its content is stated by MigrationPromptEmbeds. |
| GoMigrator.MigrationPromptEmbeds | migrate/go_migrator.py:24-46 | The migration prompt starts with the fixed rules, names the file under its heading, and holds the Python code verbatim between the dashed delimiters. |
| GoMigrator.RepairPrompt | migrate/go_migrator.py:153-164 | The repair prompt: the fixed intro, the compiler error under its heading, then the broken code between the dashed delimiters. Its content is stated by RepairPromptEmbeds. |
| GoMigrator.RepairPromptEmbeds | migrate/go_migrator.py:153-164 | The repair prompt holds the compiler error under its heading, and the broken code verbatim between the dashed delimiters. |
| GoMigrator.KeepCodeIsFilter | migrate/go_migrator.py:100-112 | A line is kept iff its stripped form starts with neither `#` nor, lower-cased, `here is` / `this code`. Kept lines are unchanged and keep their order. |
| GoMigrator.KeepCodeSnoc | migrate/go_migrator.py:101-112 | One more line is appended exactly when it is not noise. |
| GoMigrator.DropNoiseLines | migrate/go_migrator.py:100-112 | The loop with its three `continue` tests yields exactly the kept lines. |
| GoMigrator.Cleaned | migrate/go_migrator.py:114-120 | The sanitized text always starts with `package`. |
| GoMigrator.FenceRemoval | migrate/go_migrator.py:98 | Removing every ```` ``` ```` leaves no ```` ``` ```` behind, even where removal brings backticks together. |
| GoMigrator.KeptLinesHaveNoFence | migrate/go_migrator.py:101-114 | Keeping and re-joining lines of fence-free text creates no fence. |
| GoMigrator.StubHasNoFence | migrate/go_migrator.py:117-118 | Prefixing `package main` and a blank line creates no fence. |
| GoMigrator.CleanedHasNoFence | migrate/go_migrator.py:95-120 | The sanitizer's output never contains three consecutive backticks. |
| GoMigrator.CleanGoCode | migrate/go_migrator.py:91-120 | The step-by-step sanitizer equals `Cleaned(raw)`, starts with `package`, and contains no fence. |
| GoMigrator.ValidateGo | migrate/go_migrator.py:122-142 | Valid iff all four checks hold. Each error is reported iff every earlier check passed and its own check fails: missing `package main`, then brace counts, then `...`, then fewer than 5 lines. A brace mismatch carries both counts. |
| GoMigrator.BraceMismatchMessage | migrate/go_migrator.py:131-134 | The brace-mismatch message shows both counts, e.g. `Brace mismatch: {=7, }=6`. |
| GoMigrator.GenerateGo | migrate/go_migrator.py:60-66 | One generation call. A generator failure, a rejected check, or the cleaned code. Any returned code starts with `package`, has no fence and passes all four checks. |
| GoMigrator.MigrateFile | migrate/go_migrator.py:52-66 | A missing or unreadable file fails with no provider call. Otherwise the migration prompt is generated, cleaned and validated. A success is always checked Go. |
| GoMigrator.FixWithError | migrate/go_migrator.py:148-168 | A single repair call on the repair prompt, cleaned and validated. A success is always checked Go. |
| GoMigrator.SavedPath | migrate/go_migrator.py:68-80 | The engine's output path, `<project root>/migrations/<stem>.go`, independent of the Python file's directory. Its parts are stated by SavedPathParts. |
| GoMigrator.SavedPathParts | migrate/go_migrator.py:68-80 | The output file is `<stem>.go` inside the project root's `migrations` directory. |
| GoMigrator.MigrateAndSave | migrate/go_migrator.py:83-85 | Every outcome: the migration's error, or the saved path together with checked Go. |
| PythonToGo.BuildPrompt | migrate/python_to_go.py:11-37 | The converter's prompt: the fixed rules, the file path, the code between the dashed delimiters and the output note. Its content is stated by the three BuildPromptHas lemmas. |
| PythonToGo.BuildPromptHasInstruction | migrate/python_to_go.py:11-37 | The prompt contains "Convert the following Python code into Go". |
| PythonToGo.BuildPromptHasPath | migrate/python_to_go.py:27-28 | The prompt contains the file path. |
| PythonToGo.BuildPromptHasCode | migrate/python_to_go.py:30-33 | The prompt holds the code verbatim between the dashed delimiters. |
| PythonToGo.PackageLineNonEmpty | migrate/python_to_go.py:46 | A line passing the `package ` test is not empty. |
| PythonToGo.ShortLineIsNotPackageLine | migrate/python_to_go.py:46 | A line shorter than `package ` never passes, whatever it holds. |
| PythonToGo.BarePackageIsNotPackageLine | migrate/python_to_go.py:46 | A bare `package` line does not pass, because the trailing space is required. |
| PythonToGo.PackageMainIsPackageLine | migrate/python_to_go.py:46 | An indented `package main` line passes. |
| PythonToGo.FirstPackageLineIsFirst | migrate/python_to_go.py:45-47 | The index found is a line passing the test, when one exists, and no earlier line passes. |
| PythonToGo.ExtractGoCode | migrate/python_to_go.py:38-49 | `extract_go_code`: the reply's lines from the first line whose stripped form starts with `package ` to the end, joined by newlines, or the `ValueError` when there is none. Its behaviour is stated by the lemmas below. |
| PythonToGo.ExtractFailsWithoutPackageLine | migrate/python_to_go.py:38-49 | Fails iff no line's stripped form starts with `package `, and then with the source's message. |
| PythonToGo.ExtractedStartsAtPackage | migrate/python_to_go.py:43-47 | The extracted code's first line is the reply's first package line. |
| PythonToGo.ExtractedSplitsBack | migrate/python_to_go.py:43-47 | For every reply, the extracted code splits back into the reply's lines from the first package line on, except a trailing empty line, which the join loses. |
| PythonToGo.ExtractedLineBound | migrate/python_to_go.py:43-47 | For every reply, the extracted code has no more lines than the reply. |
| PythonToGo.ExtractedLines | migrate/python_to_go.py:43-47 | When the reply's last line is not empty, extracting the extracted code again changes nothing. |
| PythonToGo.ExtractTwiceDropsEmptyLine | migrate/python_to_go.py:43-47 | Extraction is not idempotent in general: a package line followed by a blank line extracts to the line and one newline, and that extracts to the line alone. |
| PythonToGo.ConvertHead | migrate/python_to_go.py:54-66 | The HEAD version, every outcome. A missing or unreadable file fails before generating. Otherwise a generator failure is passed on, a reply without a package line fails with the extractor's message, extracted code without `func main()` fails, and extracted code with it is returned. |
| PythonToGo.ConvertHeadStartsAtPackage | migrate/python_to_go.py:63-66 | A HEAD success starts with a package line and contains `func main()`. |
| PythonToGo.Reported | migrate/python_to_go.py:77-80 | The other version returns the generator's text unchanged and passes on its exception. |
| PythonToGo.ConvertOther | migrate/python_to_go.py:68-80 | The other version. Code passed in is used as is. Otherwise a missing or unreadable file fails before generating. The reply is returned unchanged. |
| PythonToGo.ConvertOtherIgnoresFile | migrate/python_to_go.py:69-76 | With code passed in, the file is not consulted. |
| PythonToGo.VersionsDisagree | migrate/python_to_go.py:53-80 | From the same file and reply, a reply without a package line is returned by one version and refused by the other. |
| PythonToGo.GoFileFor | migrate/python_to_go.py:89-93 | `save_go_file`'s target, `<parent of the Python file>/migrations/<stem>.go`. Its parts are stated by GoFileForParts and the examples below. |
| PythonToGo.GoFileForParts | migrate/python_to_go.py:89-93 | The output is `<stem>.go` in a `migrations` directory whose parent is the Python file's parent. |
| PythonToGo.GoFileForBare | migrate/python_to_go.py:89-93 | A file named without a directory is saved as `migrations/<stem>.go`. |
| PythonToGo.GoFileForAbsolute | migrate/python_to_go.py:89-93 | `/tmp/x.py` is saved as `/tmp/migrations/x.go`. |
| PythonToGo.GoFileForRelative | migrate/python_to_go.py:89-93 | `x.py` is saved as `migrations/x.go`. |
| Relationships.AnalyzeRelationships | Analyzer/relationships.py:1-12 | The loop builds exactly `Adjacency(edges)`; `nodes` is not used. |
| Relationships.AdjacencyIsTargets | Analyzer/relationships.py:5-10 | The keys are exactly the edge sources. Each key maps to the targets of its edges in edge order, duplicates kept, and no list is empty. |
| Relationships.TargetsOfAbsent | Analyzer/relationships.py:8-10 | A node with no outgoing edge has no targets. |
| Relationships.EveryEdgeListedOnce | Analyzer/relationships.py:6-10 | The keys in insertion order are the distinct sources, and the list lengths sum to the number of edges. |
| Relationships.FindOrphans | Analyzer/relationships.py:14-19 | The loop returns exactly the nodes that are not keys, in order, duplicates kept. |
| Relationships.OrphansHaveNoOutgoingEdge | Analyzer/relationships.py:14-19 | Over a built map, a node is an orphan iff it is listed and has no outgoing edge. The result is no longer than `nodes`. |
| Relationships.TargetOnlyIsOrphan | Analyzer/relationships.py:16-18 | A node that is only ever a target is an orphan. |
| Relationships.SelfEdgeIsNotOrphan | Analyzer/relationships.py:16-18 | A node with a self-edge is not an orphan. |
| Relationships.EmptyMapAllOrphans | Analyzer/relationships.py:16-18 | With an empty map every node is an orphan. |
| Relationships.OrphansOfMainHelper | Analyzer/relationships.py:14-19 | With `main` calling `helper`, the called `helper` is reported. |
| Relationships.UncalledMembers | Analyzer/relationships.py:14-19 | The corrected selection lists a node iff it is listed and no edge enters it. |
| Relationships.UncalledIsNoTarget | Analyzer/relationships.py:14-19 | The corrected selection, read off the adjacency map that `find_orphans` receives: a node is uncalled iff it is listed and occurs in no adjacency list. |
| Relationships.UncalledOfMainHelper | Analyzer/relationships.py:14-19 | With `main` calling `helper`, the corrected selection reports `main`. |
| Analyzer.RecordsCarryPath | Analyzer/analyzer.py:27-53 | Every function, class and call record of a walk carries the analysed file's path, and every call record a non-empty caller. |
| Analyzer.NoCurrentFunctionWithoutDefinition | Analyzer/analyzer.py:22-33 | `current_function` is unset iff no `def` was visited. |
| Analyzer.CurrentFunctionIsLastDefinition | Analyzer/analyzer.py:22-33 | A set `current_function` is the name of a visited `def` with no `def` after it. |
| Analyzer.Analysis.constructor | Analyzer/analyzer.py:8-10 | The three module-level lists start empty. |
| Analyzer.Analysis.Visit | Analyzer/analyzer.py:24-53 | Visiting one node appends exactly its function, class and call records, and moves `current_function` only on a `def`. |
| Analyzer.Analysis.AnalyzeFile | Analyzer/analyzer.py:13-53 | A read error propagates and appends nothing. A syntax error appends nothing. Otherwise each list is its old contents followed by the walk's records. |
| Analyzer.FunctionsAreTheDefinitions | Analyzer/analyzer.py:27-33 | One record per `def` node, in order, with its name, the path and its line. |
| Analyzer.CallRecordsAreAttributed | Analyzer/analyzer.py:44-53 | Every call record comes from a bare-name call whose caller is the last `def` visited before it. |
| Analyzer.EveryAttributedCallIsRecorded | Analyzer/analyzer.py:44-53 | Every bare-name call visited after a `def` with a non-empty name gets its record. |
| Analyzer.CallsBeforeAnyFunctionDropped | Analyzer/analyzer.py:22-53 | Calls visited before any `def` produce no record. |
| Analyzer.OnlyDefinitionsMoveCurrent | Analyzer/analyzer.py:27-33 | Only `def` nodes move `current_function`. |
| Analyzer.OnlyDefinitionsAndNameCallsMatter | Analyzer/analyzer.py:43-53 | Attribute calls, classes and other nodes make no difference to the call records. |
| Analyzer.CurrentFunctionSkips | Analyzer/analyzer.py:24-33 | Nodes other than `def` leave `current_function` unchanged. |
| Analyzer.CallsSkip | Analyzer/analyzer.py:44-53 | Nodes other than bare-name calls add no call record. |
| Analyzer.ScanEntry | Analyzer/analyzer.py:57-63 | A `.py` entry is analysed and fails iff unreadable; any other entry appends nothing. |
| Analyzer.Scan | Analyzer/analyzer.py:56-63 | One scan succeeds iff no `.py` file fails to read. It then appends every `.py` file's records in listing order. |
| Analyzer.ScriptAsWritten | Analyzer/analyzer.py:56-72 | The script as written leaves each list holding the full scan twice over. |
| Analyzer.ScriptOnce | Analyzer/analyzer.py:56-63 | A single scan leaves each list holding the records once. |
| Analyzer.OneRecordPerDefinition | Analyzer/analyzer.py:56-63 | One scan yields exactly one function record per `def` in the `.py` files. |
| Analyzer.ScriptDuplicatesEveryRecord | Analyzer/analyzer.py:56-72 | The script saves twice as many records as definitions, and each record twice as often. |
| Analyzer.ScriptDuplicatesExample | Analyzer/analyzer.py:56-72 | One file with one `def` is saved as two identical records. |
| Analyzer.BodyCallsBelongToTheirFunction | Analyzer/analyzer.py:22-53 | Under scope-aware attribution, every call in a body without nested definitions belongs to that function. |
| Analyzer.TwoFunctionsWalk | Analyzer/analyzer.py:24 | For any two sibling one-call functions, `ast.walk` visits both `def` nodes before either call. |
| Analyzer.BreadthFirstMisattributes | Analyzer/analyzer.py:24-53 | For any two sibling one-call functions `a` and `b` (with `b` named), both calls are recorded with caller `b`. |
| Analyzer.ScopedAttributionOfTwoFunctions | Analyzer/analyzer.py:24-53 | Scope-aware attribution records each call under the function it sits in. |
| Analyzer.ScopedCallsOfOneCallFunction | Analyzer/analyzer.py:22-53 | Scope-aware attribution gives the call of a one-call function to that function, whatever was current before. |
| Walk.Bfs | Analyzer/analyzer.py:24 | `ast.walk` as CPython runs it: pop the front of a queue, yield it, and queue its children behind the rest. What it yields is stated by BfsYieldsEveryNode. |
| Walk.BfsYieldsEveryNode | Analyzer/analyzer.py:24 | The walk yields every node of the tree exactly once: as many nodes as the tree holds, and the same multiset of nodes. |
| FunctionScanner.ExtractFunctions | analyzer.py:8-24 | `[]` when reading or parsing fails. Otherwise one name per `def`, in walk order. |
| FunctionScanner.NamesMatchRecords | analyzer.py:18-24 | The names are those of `Analyzer/analyzer.py`'s function records for the same walk. |
| FunctionScanner.NameCount | analyzer.py:18-24 | As many names as `def` nodes. |
| FunctionScanner.CountFunctions | analyzer.py:29-42 | The total and the printed report equal `Total` and `Report` of the listing. |
| FunctionScanner.TotalIsReportedSum | analyzer.py:36-42 | The total is the sum of the reported list lengths. Files without functions add 0 and are not reported. |
| Extractor.ExtractId | Analyzer/extractor.py:1-7 | `None` for a `None` or empty record. For any other record, its `id` whatever its truth value (`0` gives `0`), or `"UNKNOWN"` when it has no `id`. The result is falsy iff the record is falsy or its `id` is. |
| Extractor.ExtractedIds | Analyzer/extractor.py:11-12 | One extracted value per record, in order. |
| Extractor.ProcessItems | Analyzer/extractor.py:9-15 | The loop returns exactly the truthy extracted values, in order. |
| Extractor.KeptIdsSnoc | Analyzer/extractor.py:11-14 | A further record adds its value iff that value is truthy. |
| Extractor.KeptIdsMembers | Analyzer/extractor.py:9-15 | The output is no longer than the input and holds only truthy values. A value is in it iff some record yields it. |
| Extractor.FalsyIdsDropped | Analyzer/extractor.py:12-14 | `None`, empty records and records whose `id` is falsy (`0`, `0.0`, `""`, `None`) contribute nothing. |
| Extractor.MissingIdIsUnknown | Analyzer/extractor.py:7-14 | A non-empty record without `id` contributes `"UNKNOWN"`. |
| Chunker.BuildChunks | rag/chunker.py:8-13 | One chunk per record, in order. Chunk `i` has id `i`, the record's text and the record's file. Duplicates get distinct ids. |
| Chunker.ChunkTextParts | rag/chunker.py:11 | The text starts with `Function <name> in <file>` and ends with ` at line <line>`. |
| Chunker.ChunkTextDeterminesLine | rag/chunker.py:11 | Same name and file: the texts agree iff the records agree. |
| RagQuery.ContextHasEveryText | rag/rag_query.py:16-21 | Every result's text, followed by a newline, occurs in the context. |
| RagQuery.QaPromptEmbeds | rag/rag_query.py:23-36 | The prompt contains the context and the question verbatim. |
| RagQuery.Enumerate | rag/rag_query.py:42 | Iterating the set lists each file exactly once, in some order. |
| RagQuery.Answer | rag/rag_query.py:5-45 | A retriever exception passes through. The context is folded from the results. A generation failure, or no results, gives the generator outcome unchanged. Otherwise the reply is followed by the references header and each distinct file once. |
| RagQuery.NoHitsNoReferences | rag/rag_query.py:38-45 | With no results, the answer is exactly the generator outcome. |
| RagQuery.ReferencesListEveryFile | rag/rag_query.py:41-43 | With results, the answer starts with the generated text and names every distinct file. |
| RagQuery.GenerationFailurePropagates | rag/rag_query.py:38 | When both providers fail, the local provider's exception passes through. |
| RagQuery.WordsOfSpaced | rag/rag_query.py:56-57 | Splitting words that are each followed by a space gives the words back. |
| RagQuery.StreamTokensShape | rag/rag_query.py:56-57 | No tokens iff the answer is all whitespace. Otherwise the tokens concatenate to the words joined by spaces plus a trailing space. Re-splitting gives the same words, and every token ends in a space. |
| RagQuery.StreamAnswer | rag/rag_query.py:48-57 | The tokens of some possible answer, or that answer's exception. |
| Api.Recent | api.py:19 | At most the last five entries, forming a suffix of the history. |
| Api.ContextEndsWithQuestion | api.py:18-22 | After appending the question, the context ends with it. |
| Api.ContextIgnoresOlder | api.py:19-22 | Entries older than the last five do not change the context. |
| Api.ContextHasWindow | api.py:19-22 | Each of the last five contents occurs in the context. |
| Api.ChatServer.constructor | api.py:7 | The history starts empty. |
| Api.ChatServer.Ask | api.py:9-31 | A missing or empty question gives 400 and leaves the history unchanged. Otherwise the question is appended and its recent context answered. Success appends the reply (2 entries in all). A failure gives 500 with the error text and keeps the question (1 entry). |
| Api.ChatServer.Stream | api.py:34-46 | A missing question gives 400. Otherwise the answer's tokens are streamed. The history is not modified. |

## Left out

- File and network I/O:
  - `read_text`, `open`, `mkdir` and `write_text`, and the JSON files are not modelled. Reads are a `FileRead` or `Source` parameter. Writes are the returned path and text.
  - The LLM, embedding and retrieval clients are parameters. Providers are deterministic functions of the prompt.
  - Printing is not modelled, and nor are the CLI entry points (`__main__` blocks).
  - `migrate/cli.py`, `app.py`, `config.py`, `ui/app.py`, `rag/retriever.py` and `rag/vector_store.py` are not part of this model.
- `os.walk`: the listing and its order are an input sequence of entries. `os.path.join` is modelled for a plain file name only.
- `ast.parse` / `ast.walk`: a parsed file is the sequence of nodes the walk visits. The breadth-first order of `ast.walk` is modelled on an abstract tree only for the call-attribution finding.
- `Path.exists` and `Path.resolve`:
  - The engine's project root (`Path(__file__).resolve().parents[1]`) is a parameter.
  - Paths are strings already in pathlib's normal form.
- The merge conflict: `migrate/python_to_go.py` holds unresolved conflict markers and cannot be imported as written. Each side of `convert_python_to_go` is modelled on its own.
- `str.lower()` is modelled on ASCII letters only, so a noise prefix spelled with non-ASCII characters that Python lower-cases to ASCII letters is not recognised by the model.
- Extractor.ExtractId: records are `None` or dictionaries. A truthy non-dict record makes `.get` raise, and is not modelled.
- JSON values in the chat API: the question is either absent or a string. A request without a JSON body and a non-string question are not modelled. The `/health` endpoint is a constant and is not modelled.
- Flask concurrency: requests are handled one at a time on the shared history. The `/stream` generator is lazy in the source, and the model evaluates the answer at once.
- PythonToGo.ExtractedLines: idempotence is proved only when the reply's last line is not empty. It does not hold otherwise: the reply `"package main\n\n"` extracts to `"package main\n"`, and that extracts to `"package main"` (PythonToGo.ExtractTwiceDropsEmptyLine). The line bound and the split-back property hold for every reply.
- JSON numbers in the extractor: a float is an exact `real`, falsy iff zero. NaN and infinities are not modelled.
- The retriever behind `answer`: `RagQuery.Hit` and `RagQuery.Search` model the interface `answer` expects, a one-argument search returning records with `text` and `file`. The repository's own `search` in `rag/retriever.py` needs a `module` argument and returns plain chunk strings. With that retriever, `search(question)` raises a `TypeError` on every call, so only the branch of `RagQuery.Answer` where the retriever's exception passes through is reachable, and `/ask` always answers 500. Passing a module would not help, because `r["text"]` on a string raises too. The success properties of `RagQuery` are about the expected interface.
- Chunker.BuildChunks: the line number is a non-negative integer, as `ast` gives it. Other JSON types in `functions.json` are not modelled.

## Findings

| source | as written | input that shows it | evidently intended | confidence | as-written member | corrected member |
|---|---|---|---|---|---|---|
| Analyzer/relationships.py:14-19 | `find_orphans` keeps the nodes that are not keys of the adjacency map, i.e. nodes without outgoing calls | nodes `["main", "helper"]`, edges `[("main", "helper")]`: returns `["helper"]`, which is called | the nodes that nothing calls: `["main"]` | not executed; medium (an "orphan" in a call graph is a node that nothing calls) | Relationships.OrphansOfMainHelper | Relationships.UncalledOfMainHelper |
| Analyzer/analyzer.py:56-72 | the script scans the directory tree twice into the same module-level lists | one file `erp/a.py` holding `def f` at line 1: two identical function records are saved | one record per definition | not executed; high | Analyzer.ScriptDuplicatesEveryRecord | Analyzer.OneRecordPerDefinition |
| Analyzer/analyzer.py:22-53 | the caller of a call is the last `def` visited, but `ast.walk` visits breadth-first | `def a(): foo()` then `def b(): bar()`: both calls are recorded with caller `b` | each call attributed to its enclosing function: `a → foo`, `b → bar` | not executed; high | Analyzer.BreadthFirstMisattributes | Analyzer.ScopedAttributionOfTwoFunctions |
