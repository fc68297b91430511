# Financial document analyzer: a Dafny model of its core

The service accepts a PDF upload and answers a query about it. It records the job in an `analyses` table as QUEUED. A background worker then runs a four-task CrewAI crew over the document and moves the job to PROCESSING and then COMPLETED or FAILED. A status endpoint reports the job and hides the result until the job is finished. The crew's agents call three text tools: a PDF reader that joins pages and squeezes blank lines, and two pre-processing tools that normalise whitespace and frame the text with a fixed header.

This project models that core as pure Dafny functions over immutable data:

- `Results` has the `Option` and `Result` datatypes that stand for Python's `None` and for raised exceptions.
- `PyStr` holds the Python string built-ins the core relies on:
  - `str.isspace`, with the exact whitespace set of CPython's `str.split()` and `str.strip()`;
  - `strip`, `split()`, `" ".join`, `endswith`, and `str(int)`.
- `Tools` (tools.py) covers:
  - the newline-collapse loop and the page loop of `read_financial_document`, with its blank-report fallback;
  - the whitespace normaliser;
  - the framed output of `analyze_investment_tool` and `create_risk_assessment_tool`, and a parser that reads such output back.
- `Tasks` (task.py) covers:
  - the four tasks, their `context` lists, and the crew's fixed task order;
  - the description templates, their `{placeholders}`, and interpolation from the kickoff inputs.
- `Crew` (main.py:56-67) covers the sequential process. Each task runs once, in order, on its interpolated description and the outputs of its context tasks. The first exception ends the run. The agents themselves are an opaque function.
- `Jobs` (main.py) covers:
  - the upload guard and initial row, the worker's commits, and the status read;
  - a service-level model over the table, the scheduled background tasks and the runs under way. Its events are uploads, the start of a worker run (its PROCESSING commit) and the end of a run (its final commit). Events of different runs interleave in any order, several runs can be under way at once, and a status read can be made between any two events. An invariant is proved for every reachable state.
- `Pipeline` (main.py:45-81 with main.py:133) connects the worker to the crew. The worker kicks the crew off with the query and file path it was scheduled with, and it records the crew's answer.

Behaviour worth knowing:

- The `.pdf` test is exact and case-sensitive.
- The stored query is stripped, but the worker receives the query as sent.
- A worker run for a task id with no row writes nothing.
- The squeeze removes blank lines inside each page only. Any page whose text ends in a newline still produces `"\n\n"` in the report, because the reader appends `"\n"` after every page (`Tools.ReportKeepsPageBoundaryBlankLine`).
- The verification task's "halt" instruction is prompt text. No code reads it, so all four tasks run unless one raises (`Crew.RunCrew`).

## Model

| member | source | states |
|---|---|---|
| `PyStr.EndsWithAppend` | financial-document-analyzer-debug/main.py:108 | a string ends with a suffix when it is some string followed by that suffix, and the part before the suffix is that string |
| `PyStr.EndsWithCut` | financial-document-analyzer-debug/main.py:108 | a string that ends with a suffix is the part before it followed by the suffix |
| `PyStr.Strip` | financial-document-analyzer-debug/main.py:125 | the result has no whitespace at either end; it is the input with its leading and trailing whitespace removed; it is empty exactly when the input is all whitespace |
| `PyStr.Split` | financial-document-analyzer-debug/tools.py:61 | every token is non-empty and contains no whitespace |
| `PyStr.SplitKeepsNonSpace` | financial-document-analyzer-debug/tools.py:61 | the tokens, written one after another, are exactly the input's non-whitespace characters in order |
| `PyStr.SplitAcrossSpace` | financial-document-analyzer-debug/tools.py:61 | a non-empty run of whitespace is a token boundary: the tokens of `a + w + b` are the tokens of `a` followed by the tokens of `b`, so tokens are maximal runs of non-whitespace |
| `PyStr.SplitAfterToken` | financial-document-analyzer-debug/tools.py:61 | a token followed by whitespace or by nothing is split off whole |
| `PyStr.JoinSpace` | financial-document-analyzer-debug/tools.py:61 | joining adds only whitespace: the joined text's non-whitespace characters are those of the tokens, in order |
| `PyStr.JoinSingleSpaced` | financial-document-analyzer-debug/tools.py:61 | joining whitespace-free tokens with single spaces gives a single-spaced string; it is empty exactly when there are no tokens |
| `PyStr.SplitJoin` | financial-document-analyzer-debug/tools.py:61 | splitting a space-joined list of tokens gives back the same tokens |
| `PyStr.SingleSpacedFixpoint` | financial-document-analyzer-debug/tools.py:61 | joining the tokens of a single-spaced string gives back that string |
| `PyStr.NatToString` | financial-document-analyzer-debug/tools.py:65 | `str(n)` is a non-empty run of decimal digits with no leading zero unless it is `0` |
| `PyStr.ParseNatToString` | financial-document-analyzer-debug/tools.py:65 | the decimal text of a length parses back to that length |
| `PyStr.ParseNatCanonical` | financial-document-analyzer-debug/tools.py:65 | only the decimal text of n parses as n, so a zero-padded number is not read as a length |
| `Tools.ContainsDoubleNewline` | financial-document-analyzer-debug/tools.py:36 | the loop test is true exactly when the text has two adjacent newlines |
| `Tools.ReplaceDoubleNewline` | financial-document-analyzer-debug/tools.py:37 | one `replace` pass removes only newline characters; the others stay, in order |
| `Tools.ReplaceHead` | financial-document-analyzer-debug/tools.py:37 | one `replace` never lengthens the text and shortens it whenever a double newline is present, so the loop terminates |
| `Tools.ReplaceKeepsSqueeze` | financial-document-analyzer-debug/tools.py:37 | one `replace` does not change the text's squeezed form (the loop invariant) |
| `Tools.SqueezeNoDoubleNewline` | financial-document-analyzer-debug/tools.py:36-37 | squeezed text has no two adjacent newlines |
| `Tools.SqueezeKeepsNonNewlines` | financial-document-analyzer-debug/tools.py:36-37 | squeezing removes only newline characters; the other characters stay, in order |
| `Tools.CollapseNewlines` | financial-document-analyzer-debug/tools.py:36-37 | the loop ends with no double newline and the same non-newline characters; its output equals the reference squeeze, in which every run of newlines becomes one; it is empty only for empty input |
| `Tools.AccumulateReport` | financial-document-analyzer-debug/tools.py:32-38 | the page loop yields the reference report: in page order, each non-empty page's squeezed text followed by one newline |
| `Tools.ReportSnoc` | financial-document-analyzer-debug/tools.py:38 | one more page adds its contribution at the end of the report |
| `Tools.ReportAppend` | financial-document-analyzer-debug/tools.py:32-38 | the report of two runs of pages is the concatenation of their reports |
| `Tools.EmptyPageContributesNothing` | financial-document-analyzer-debug/tools.py:34 | a page whose extraction is `None` or empty can be removed without changing the report |
| `Tools.PageTextHasNoDoubleNewline` | financial-document-analyzer-debug/tools.py:36-38 | a non-empty page contributes its squeezed text plus one newline, and that text has no double newline |
| `Tools.ReportKeepsPageBoundaryBlankLine` | financial-document-analyzer-debug/tools.py:36-38 | wherever it sits among the other pages, any page whose text ends in a newline leaves a double newline in the report |
| `Tools.BlankReportIffBlankPages` | financial-document-analyzer-debug/tools.py:32-40 | the report is empty or all whitespace exactly when every extracted page is |
| `Tools.ReadFinancialDocument` | financial-document-analyzer-debug/tools.py:40-43 | a blank or whitespace-only report gives the fixed "no text could be extracted" message; any other report is returned unchanged |
| `Tools.Normalize` | financial-document-analyzer-debug/tools.py:61 | the result has no whitespace at its ends, and each whitespace character in it is a single space between non-space characters; it has the same tokens, in the same order, as the input |
| `Tools.NormalizeFixedPoints` | financial-document-analyzer-debug/tools.py:61 | normalising leaves a text unchanged exactly when it is already single-spaced |
| `Tools.NormalizeIdempotent` | financial-document-analyzer-debug/tools.py:77 | normalising twice is the same as normalising once |
| `Tools.ParseLengthLineOf` | financial-document-analyzer-debug/tools.py:65 | the `Extracted Length: <n> characters.` line reads back as n and holds no newline |
| `Tools.ParseFrameRoundTrip` | financial-document-analyzer-debug/tools.py:65 | a framed output reads back, given its title and lead-in, as the data's length and the data |
| `Tools.ParseFrameExact` | financial-document-analyzer-debug/tools.py:61-65 | only the framed output reads back as a data text and its length: a tool output that parses to the text and its length is exactly the frame of that text |
| `Tools.Preprocess` | financial-document-analyzer-debug/tools.py:61-65 | the tool output is the title line, a length line equal to the normalised text's length, the lead-in and a blank line, and ends with the normalised text |
| `Tools.AnalyzeInvestmentTool` | financial-document-analyzer-debug/tools.py:53-65 | the output, read back with the investment title and lead-in, gives the normalised text and its length |
| `Tools.CreateRiskAssessmentTool` | financial-document-analyzer-debug/tools.py:70-79 | the output, read back with the risk title and lead-in, gives the normalised text and its length |
| `Tools.ToolsDifferOnlyInFraming` | financial-document-analyzer-debug/tools.py:77-79 | the risk tool reads back to the same length and normalised data as the investment tool; the two outputs differ |
| `Tasks.Context` | financial-document-analyzer-debug/task.py:41-77 | only the verification task has no context; no task is its own context; each context list is in crew order |
| `Tasks.Position` | financial-document-analyzer-debug/main.py:58 | each task has an index in the crew's task list `CrewOrder` holding that task |
| `Tasks.CrewOrderIsPermutation` | financial-document-analyzer-debug/main.py:58 | the crew's task list `CrewOrder` lists every task exactly once |
| `Tasks.OrderRespectsContext` | financial-document-analyzer-debug/task.py:41-77 | every upstream context task comes strictly earlier in the crew's order than the task that uses it |
| `Tasks.UpstreamPathMovesEarlier` | financial-document-analyzer-debug/task.py:41-77 | along a chain of context links, the chain's last task comes strictly earlier in the crew's order than its first |
| `Tasks.ContextIsAcyclic` | financial-document-analyzer-debug/task.py:41-77 | no chain of context links returns to the task it started from |
| `Tasks.InvestmentAnalysisIsUniqueSink` | financial-document-analyzer-debug/task.py:77 | a task is in no other task's context exactly when it is the investment analysis, which is last in the crew's order |
| `Tasks.Template` | financial-document-analyzer-debug/task.py:17-67 | the slots are `file_path` for verification; `file_path` then `query` for the analysis; `file_path` for risk; `query` for the investment task |
| `Tasks.Description` | financial-document-analyzer-debug/task.py:18-23 | the `{...}` placeholders found in a description string are exactly its template's slots, in order |
| `Tasks.PlaceholdersOfRender` | financial-document-analyzer-debug/task.py:18-23 | the placeholders found in any rendered template are exactly its slots, in order |
| `Tasks.KickoffInputs` | financial-document-analyzer-debug/main.py:64-67 | the inputs map `query` to the query and `file_path` to the path, and hold a value for every slot of every task's template |
| `Tasks.Interpolate` | financial-document-analyzer-debug/main.py:64-67 | interpolation succeeds exactly when every placeholder has an input; a failure names a placeholder with no input |
| `Tasks.InterpolateRender` | financial-document-analyzer-debug/main.py:64-67 | interpolating a rendered template whose slots all have inputs gives the template with each slot replaced by its input |
| `Tasks.DescriptionsFill` | financial-document-analyzer-debug/main.py:64-67 | each description, interpolated from the kickoff inputs, is its template with `{query}` and `{file_path}` replaced by the query and the path |
| `Crew.TaskInput` | financial-document-analyzer-debug/main.py:64-67 | the description a task's agent receives is its template with its slots filled from the kickoff's query and file path |
| `Crew.RunTasks` | financial-document-analyzer-debug/main.py:56-59 | on success every task of the run has an output and the outputs of earlier tasks are kept |
| `Crew.RunTasksHasContexts` | financial-document-analyzer-debug/task.py:41-77 | after a successful run every task finds the outputs of all its context tasks |
| `Crew.RunTasksAnswers` | financial-document-analyzer-debug/main.py:56-59 | each task's output is the agent's answer given that task's description and exactly the outputs of its context tasks, in `context` order |
| `Crew.RunTasksFails` | financial-document-analyzer-debug/main.py:56-59 | a failed run failed at some task: every earlier task was answered, and that task's agent call, on its description and the outputs the earlier tasks produced, raised the run's error |
| `Crew.FailsAtFails` | financial-document-analyzer-debug/main.py:56-59 | conversely, when a task's agent call on exactly those inputs raises after every earlier call answered, the run fails with that error |
| `Crew.CrewOrderReady` | financial-document-analyzer-debug/main.py:58 | in the crew's order, every task's context tasks have already run |
| `Crew.RunTasksWithoutFailure` | financial-document-analyzer-debug/main.py:56-59 | when no agent call raises, the sequential run succeeds |
| `Crew.CrewRun` | financial-document-analyzer-debug/main.py:56-61 | the crew's run from no outputs is well-formed and both characterisations hold of it: the answers on success, and the failing task on failure |
| `Crew.RunCrew` | financial-document-analyzer-debug/main.py:56-61 | a successful run has an output for all four tasks, each the agent's answer on its own context; the run fails with an error exactly when some task's agent call on its actual inputs raises it after all earlier calls answered; it succeeds exactly when no such call raises |
| `Crew.Kickoff` | financial-document-analyzer-debug/main.py:64-67 | on success the crew's result is the investment analysis task's answer on its interpolated description and its context; a failure carries the error of the first agent call that raised, on its actual inputs; it succeeds exactly when no such call raises |
| `Jobs.FormQuery` | financial-document-analyzer-debug/main.py:104 | the query is never empty: an absent or empty form field gives the default text, and any other value is taken as sent |
| `Jobs.UploadPath` | financial-document-analyzer-debug/main.py:111-112 | the path ends in `.pdf`, starts with `data/doc_`, and the task id reads back out of it |
| `Jobs.UploadPathInjective` | financial-document-analyzer-debug/main.py:111-112 | two jobs share an upload path only when they are the same job |
| `Jobs.Submit` | financial-document-analyzer-debug/main.py:108-133 | a name without the exact `.pdf` suffix is rejected with nothing created; an accepted upload adds only the new row, QUEUED, with no result and the stripped query; the worker is scheduled with the unstripped query and `data/doc_<id>.pdf` |
| `Jobs.PdfSuffixIsCaseSensitive` | financial-document-analyzer-debug/main.py:108-109 | `q2_report.pdf` is accepted; `Q2_REPORT.PDF` and `report.pdf.txt` are rejected |
| `Jobs.ProcessCrewTask` | financial-document-analyzer-debug/main.py:45-81 | with no row, no writes; otherwise it commits PROCESSING, then COMPLETED with the crew's text or FAILED with the fixed error prefix and the message; it never commits QUEUED and keeps the file name and query |
| `Jobs.WorkerFollowsLifecycle` | financial-document-analyzer-debug/main.py:51-81 | from a QUEUED row, each commit is a permitted step and the row ends finished with a result |
| `Jobs.WorkerOutcome` | financial-document-analyzer-debug/main.py:70-81 | the row ends COMPLETED exactly when the crew returned, and FAILED when it raised |
| `Jobs.GetAnalysisStatus` | financial-document-analyzer-debug/main.py:145-160 | unknown ids give not-found; a known id shows its file name and status, and shows its result only when COMPLETED or FAILED, and "Analysis in progress..." otherwise |
| `Jobs.SubmittedJobReadsQueued` | financial-document-analyzer-debug/main.py:122-160 | right after an upload the new id reads QUEUED and in progress; other ids read as before |
| `Jobs.FinishedJobReadsOutcome` | financial-document-analyzer-debug/main.py:70-81 | after the worker runs, the id reads COMPLETED with the crew's text or FAILED with the prefixed message; other ids read as before |
| `Jobs.Apply` | financial-document-analyzer-debug/main.py:45-133 | no event deletes a row, and only an upload adds one |
| `Jobs.ApplyKeepsUploadFields` | financial-document-analyzer-debug/main.py:51-81 | no event changes a row's file name or query once the upload has inserted them |
| `Jobs.UploadKeepsInvariant` | financial-document-analyzer-debug/main.py:108-133 | an upload keeps the service invariant |
| `Jobs.BeginKeepsInvariant` | financial-document-analyzer-debug/main.py:47-53 | a run's start, which takes the task from the scheduled list to the running list and commits PROCESSING, keeps the service invariant |
| `Jobs.FinishKeepsInvariant` | financial-document-analyzer-debug/main.py:63-81 | a run's end, which takes the task off the running list and commits COMPLETED or FAILED, keeps the service invariant |
| `Jobs.ApplyKeepsInvariant` | financial-document-analyzer-debug/main.py:45-133 | every event keeps the service invariant |
| `Jobs.ReachableInvariant` | financial-document-analyzer-debug/main.py:45-133 | in every reachable state: a row is QUEUED exactly while its run is scheduled and not started, PROCESSING exactly while its run is under way, and otherwise COMPLETED or FAILED with a result; no task is scheduled or running twice; each row's committed statuses run QUEUED, PROCESSING, then COMPLETED or FAILED |
| `Jobs.BegunJobReadsProcessing` | financial-document-analyzer-debug/main.py:51-53 | once its run has started, a job reads PROCESSING and "Analysis in progress..."; other jobs read as before |
| `Jobs.EndedJobReadsOutcome` | financial-document-analyzer-debug/main.py:69-81 | when its run ends, a job reads COMPLETED with the crew's text or FAILED with the prefixed message; other jobs read as before |
| `Jobs.BeginThenFinishIsWorkerRun` | financial-document-analyzer-debug/main.py:45-81 | a run's start followed by its end leaves the table as the worker function does |
| `Jobs.FinishedJobIsFinal` | financial-document-analyzer-debug/main.py:145-160 | no later event changes a finished row, so repeated status reads give the same response |
| `Jobs.UploadThenBegin` | financial-document-analyzer-debug/main.py:128-133 | an accepted upload schedules exactly its run, with the query as sent and its upload path, and that run can start |
| `Jobs.UploadBeginFinishPoll` | financial-document-analyzer-debug/main.py:100-160 | polls after an upload, after its run starts and after it ends read QUEUED, then PROCESSING, then the outcome, wherever other jobs stand |
| `Pipeline.RunWorker` | financial-document-analyzer-debug/main.py:45-81 | with a row, the worker leaves it COMPLETED when the crew's kickoff returns and FAILED when it raises; when no agent raises, it always ends COMPLETED; with no row, nothing is written |
| `Pipeline.UploadRunPoll` | financial-document-analyzer-debug/main.py:100-160 | after an upload, its worker run and a poll, the response carries the file name, plus either the investment analysis answer to the query as sent (not the stripped stored copy) or the prefixed message of the crew's exception |
| `Pipeline.ServiceUploadRunPoll` | financial-document-analyzer-debug/main.py:100-160 | in the service, an upload's job reads QUEUED, then PROCESSING while its crew runs, then the investment answer to the query as sent or the prefixed exception message |

## Left out

- HTTP routing, `UploadFile` reading, `BackgroundTasks` scheduling, uvicorn and the health endpoint: framework I/O. Uploads, the start of a worker run and its end are events of `Jobs.Apply`, and scheduled runs may start and end in any order.
- SQLAlchemy engine, sessions and commits: the table is a `map` from task id to row, and each commit is a row value.
- uuid generation: the id is a parameter of `Jobs.Submit`. An id already in the table stands for the insert failing, which the handler reports as a 500. Other ways the insert can fail are not modelled.
- Saving the upload (main.py:114-118): a failed `open`, `read` or `write` is reported as a 500 by main.py:142-143, with no row and no scheduled run. This failure path is not modelled.
- Deleting the file after the run (main.py:86-90): filesystem I/O whose errors are swallowed, not modelled. Only the path `data/doc_<id>.pdf` is modelled.
- Jobs.Submit: accepts every fresh `.pdf` upload, because the failed save above is not modelled. It takes the query as received. The form default `Analyze this financial document for investment insights` is applied by the separate `Jobs.FormQuery`.
- CrewAI itself, the language model and the agent definitions in agents.py: one opaque `Agent` function gives each task's answer or exception. The agents' goal texts, which also contain `{query}`, are not modelled.
- CrewAI's placeholder syntax is approximated: a placeholder is a `{` up to the next `}`, and a `{` with no closing `}` is left as text.
- pypdf (`PdfReader`, `extract_text`), the `ImportError` branch and the generic exception branch of the reader: the pages are an input `seq<Option<string>>`, and the two error texts are not modelled.
- The Serper web search tool: a network client.
- Database concurrency: each commit is one atomic event, so SQLite locking, transaction isolation and two sessions writing at the same instant are not modelled. Worker runs do overlap in the model: the thread pool that runs background tasks is stood for by a run being two events, its PROCESSING commit and its final commit, between which the events of other runs, uploads and status reads interleave in any order.
- Pipeline.ServiceUploadRunPoll: each run's outcome is the isolated kickoff of its own query and file path. Overlapping crews are assumed not to interfere, although the source hands every run the same module-level task objects (task.py:17-77) and agents (main.py:56-58), so state one run leaves on them is not modelled.
- The crew's calls to the language model run between a run's two events; they are the `outcome` of its end event.
