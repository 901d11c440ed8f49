# code-parivartan backend, modelled in Dafny

code-parivartan is a web service that takes a GitHub repository URL and a task
description from a logged-in user. It runs one "AI developer" job in the background:

1. Gemini rewrites the task description (the "enhanced" task).
2. The repository is forked.
3. Gemini is asked for a list of file modifications, as a JSON array of
   `{"file_path", "content"}` objects.
4. A branch is created on the fork and each modification is committed to it.
5. A pull request is opened into `main`.

The job returns `{"status": "success", "pr_url": ...}` or `{"status": "error",
"message": ...}`. A Flask app validates submissions, reports job states, cleans up an
"enhance my prompt" reply from Gemini, and clears the session on logout.

This project models that backend as it is written: the job runs the analysis step
exactly as the code does. Where verification exposed a defect, the corrected
behaviour is a separate member, listed under Findings, and nothing in the job uses it.
The modules follow the four backend files. Two more modules hold the Python and JSON behaviour they rely on:

- `Base` (`base.dfy`): `Option`, `Result`, `Outcome`, and Python exceptions as an
  `Error(kind, message)`.
- `PyText` (`pytext.dfy`):
  - `str.strip()` with Python's whitespace set;
  - slicing `[:n]`;
  - `str.replace`;
  - the `in` test on strings.
- `Json` (`json.dfy`):
  - the values `json.loads` produces;
  - truthiness, dictionary lookup, `type(v).__name__`;
  - `json.dumps` with its default separators and `ensure_ascii` escaping;
  - `repr`/`str` of a value, for error messages that embed one;
  - `json.loads` as an opaque decoder. `Lawful(decode)` states the only facts the
    backend relies on: decoding yields well-formed values and reads back what
    `json.dumps` wrote.
- `GitHub` (`github_utils.dfy`): `GitHubManager`.
  - The GitHub server is a `Remote` object whose map from `owner/name` paths to
    repositories is updated in place.
  - A repository holds its branch refs, each pointing at a commit that carries the
    branch's whole file table. It also holds its commit log and its pull requests.
  - `CommitChanges` is proved against the specification function `CommitSpec`. Its
    loop over the entries is the method `WriteAll`, a `while` loop with invariants,
    proved against `ApplyAll`.
- `Gemini` (`llm_agents.dfy`): `GeminiAgent`.
  - the API-key check;
  - the regular-expression extraction of a JSON array from the reply, stated as a
    leftmost, shortest-match substring search;
  - list and entry validation;
  - re-serialisation.
- `Tasks` (`tasks.dfy`): `run_dev_agent_task`.
  - The imperative step sequence `RunDevAgentTask` is proved equal to the
    specification function `RunSpec`: the same remote state, the same result record,
    and the same number of steps started. The steps run in one fixed order
    (enhance, fork, create the agent, analyze, create the branch, commit, open the
    pull request), so that number says which step raised.
  - `enhance_prompt` and the branch-name derivation.
- `App` (`app.dfy`):
  - `submit`, `task_status`, and the reply handling of `/api/enhance`, as functions of
    the session, the request body and the external replies;
  - `logout`, as a method of a `Session` object whose entries it removes in place.

Gemini's replies, GitHub's fork endpoint, the `GOOGLE_API_KEY` setting and `json.loads`
are function parameters. Most properties hold whatever they return. Five lemmas
assume a lawful decoder (`Lawful(decode)`) and say nothing about any other:
`Gemini.AnalyzeRoundTrip`, `Gemini.IntendedAcceptsSerialisedList`,
`GitHub.CommitSerialisedList`, `Tasks.AnalyzeOutputAccepted` and
`App.EnhanceAcceptsObject`.

## Model

| member | source | states |
|---|---|---|
| PyText.Strip | backend/tasks.py:34 | `strip()` removes exactly a whitespace prefix and a whitespace suffix: the result is a contiguous slice of the input with only whitespace outside it, and it neither starts nor ends with whitespace |
| PyText.StripSurrounded | backend/llm_agents.py:45 | stripping text made of whitespace, a core that does not start or end in whitespace, and whitespace gives back exactly that core |
| PyText.StripIdempotent | backend/tasks.py:34 | stripping twice is the same as stripping once |
| PyText.Take | backend/tasks.py:67 | `s[:n]` has length `min(n, len(s))` and is a prefix of `s` |
| PyText.Replace | backend/github_utils.py:15 | replacing a pattern by itself changes nothing; a replacement no longer than the pattern never lengthens the text, and one of the same length keeps its length |
| PyText.ReplaceAbsent | backend/github_utils.py:15 | `replace` leaves text without the pattern unchanged |
| PyText.RemoveLeading | backend/github_utils.py:15 | replacing a pattern by nothing in `pattern + rest`, where `rest` does not contain the pattern, gives `rest` |
| PyText.ReplaceChar | backend/tasks.py:67 | replacing one character by another keeps the length and maps each position independently |
| Json.Get | backend/github_utils.py:50 | a dictionary lookup succeeds exactly when the key is present, and returns a value stored under that key |
| Json.GetOrNull | backend/app.py:79-80 | `dict.get` returns the stored value when the key is present and `None` otherwise |
| Json.Truthy | backend/app.py:76 | the values `not` treats as false are exactly `None`, `False`, `0`, `""`, `[]` and `{}` |
| Json.QuotePlain | backend/llm_agents.py:64 | `json.dumps` writes a string of printable characters other than `"` and `\` as that string between double quotes |
| Json.DumpsPrintable | backend/llm_agents.py:64 | every serialisation `json.dumps` produces is printable ASCII, because of its `ensure_ascii` escaping |
| Json.Dumps | backend/llm_agents.py:64 | `json.dumps` writes a string between double quotes, a list between brackets and an object between braces |
| Json.Repr | backend/github_utils.py:52 | `repr` writes a string between matching single or double quotes, a list between brackets and a dictionary between braces |
| Json.PyStr | backend/github_utils.py:52 | the f-string writes a string as itself and anything else by its `repr`, so a list appears in brackets and a dictionary in braces |
| Gemini.NewGeminiAgent | backend/llm_agents.py:17-25 | construction succeeds exactly when `GOOGLE_API_KEY` is set and non-empty; otherwise it raises `ValueError` with the source's message; the agent is named "Gemini" and uses model `gemini-2.5-pro` |
| Gemini.SkipSpace | backend/llm_agents.py:48 | `\s*` from a position stops at the first non-whitespace character, and everything it skipped is whitespace |
| Gemini.ArrayMatchShape | backend/llm_agents.py:48 | a regex match `[`, whitespace, `{`, anything, `}`, whitespace, `]` is exactly an opening at its start, the skipped whitespace, and a closing after the `{` |
| Gemini.FindClose | backend/llm_agents.py:48 | the lazy `.*?}\s*]` ends at the first `}` followed by optional whitespace and `]`, or there is none |
| Gemini.MatchAt | backend/llm_agents.py:48 | a match starting at a given position is found exactly when one exists, and it ends at the earliest possible closing |
| Gemini.SearchFrom | backend/llm_agents.py:48 | the search returns the leftmost match at or after a position, with its shortest closing, or reports that none exists |
| Gemini.FindJsonArray | backend/llm_agents.py:48 | `re.search` returns the leftmost match with the shortest closing, and reports none exactly when the text has no match |
| Gemini.ExtractJsonArray | backend/llm_agents.py:47-53 | with a match, the text becomes exactly the matched substring, which starts with `[` and ends with `]`; without one it is kept as it is |
| Gemini.ValidateModifications | backend/llm_agents.py:55-67 | it succeeds exactly when the text decodes to a list all of whose elements are objects with `file_path` and `content`, and the result is the printable `json.dumps` of that list; otherwise it gives `ValueError` with the source's message for the decoding error, the non-list, and the bad entry |
| Gemini.AnalyzeAndModify | backend/llm_agents.py:43-73 | the client's error is re-raised; otherwise the reply is stripped, the regex extraction is applied, and the result is validated (as written) |
| Gemini.AnalyzeRoundTrip | backend/llm_agents.py:57-64 | given a lawful decoder, decoding the returned string gives back the validated list: a list of modification entries |
| Gemini.CutAtFirstClose | backend/llm_agents.py:48 | in text `[{` m `}]` rest, where m has no `}`, the match is the first four characters plus m, whatever follows |
| Gemini.ExtractCut | backend/llm_agents.py:45-50 | such a text, ending in `]`, is cut by the fallback extraction to its prefix up to the first `}]` |
| Gemini.ExtractTruncatesValidReply | backend/llm_agents.py:47-50 | the serialisation of a valid one-file modification list whose content starts with `}]` is cut by the extraction to a strict prefix of itself |
| Gemini.AnalyzeAndModifyIntended | backend/llm_agents.py:45-67 | the corrected step: a reply that validates as it is, as a list of modification entries, is returned as the code would return it; any other reply goes through the regex extraction exactly as in the as-written step. The job does not use it |
| Gemini.DumpsListStripped | backend/llm_agents.py:45 | a serialised list is unchanged by `strip()` |
| Gemini.IntendedAcceptsSerialisedList | backend/llm_agents.py:45-64 | given a lawful decoder, a reply that is the serialisation of a list of modification entries is accepted and returned unchanged, whatever the file contents are |
| Gemini.IntendedAcceptsMore | backend/llm_agents.py:45-67 | the corrected step accepts every reply the as-written step accepts; where the corrected step fails, both give the same error |
| GitHub.RepoPathOfUrl | backend/github_utils.py:15 | for `https://github.com/` + p, where p does not contain that prefix, the repository path is exactly p |
| GitHub.RepoPathWithoutPrefix | backend/github_utils.py:15 | a URL without the prefix passes through unchanged |
| GitHub.RepoPath | backend/github_utils.py:15 | removing the prefix never lengthens the URL |
| GitHub.RefNameInjective | backend/github_utils.py:30 | `refs/heads/` + name names distinct refs for distinct branches, and the same ref for the same branch |
| GitHub.PullTitle | backend/github_utils.py:85 | the title is `AI Agent: ` followed by the first 50 characters of the description: its length is 10 + min(50, len), its tail is a prefix of the description, and the whole description when it is at most 50 characters long |
| GitHub.AddCommit | backend/github_utils.py:59-73 | a write makes a fresh commit the head of the branch, appends it to the log, and leaves the pull requests alone |
| GitHub.UpdateFile | backend/github_utils.py:58-65 | an update succeeds exactly when the file exists on the branch and the content is a string, and it sets that file's content in a new commit |
| GitHub.CreateFile | backend/github_utils.py:68-73 | a create succeeds exactly when path and content are strings, the branch exists and the file does not, and it adds the file in a new commit |
| GitHub.Found | backend/github_utils.py:58 | `get_contents` finds a file exactly when the path is a string, the branch exists and its tree has that path |
| GitHub.WrittenIsFound | backend/github_utils.py:57-74 | once an entry is written, its path is found on the branch with the entry's content, so a later entry for the same path is an update |
| GitHub.ApplyEntry | backend/github_utils.py:50-74 | an entry that is not an object with both keys raises `ValueError` "Invalid modification format: " + its `str`; otherwise the write succeeds exactly when path and content are strings and the branch exists; the message is "Update p for task" when the file existed and "Create p for task" when it did not |
| GitHub.ApplyAll | backend/github_utils.py:49-74 | the loop changes no ref other than the branch's, no pull request, and only appends to the commit log |
| GitHub.ApplyAllAppend | backend/github_utils.py:49-74 | running the loop over `xs + ys` is running it over `xs`, then, if that passed, over `ys` from the resulting state |
| GitHub.NoRollback | backend/github_utils.py:49-52 | when entry k is the first bad one, the loop fails with its `ValueError`, and the writes of the entries before k stay in place |
| GitHub.ApplyAllPasses | backend/github_utils.py:49-74 | the loop passes exactly when every entry has string path and content and, for a non-empty list, the branch exists |
| GitHub.ApplyAllOverlay | backend/github_utils.py:49-75 | after a successful loop the branch's files are its old files overlaid with the entries in list order, and one commit was made per entry |
| GitHub.OverlayLastWins | backend/github_utils.py:49-74 | each path holds the content of the last entry that names it, so a later duplicate wins |
| GitHub.OverlayUntouched | backend/github_utils.py:49-74 | a path no entry names keeps its content, or stays absent |
| GitHub.OverlayKeys | backend/github_utils.py:49-74 | a path is in the overlaid table exactly when it was in the old table or is the path of some entry |
| GitHub.Iterated | backend/github_utils.py:49 | `for mod in mods` yields a list's items, a dictionary's keys or a string's characters; for a number, a boolean or `None` the earlier `len(mods)` raises `TypeError` with Python's message |
| GitHub.CommitSpec | backend/github_utils.py:38-78 | an unknown repository raises "Not Found" and undecodable text raises `ValueError` "Invalid JSON format in modifications: ...", both before any file is written; no repository is added or removed, and repositories other than the target are unchanged |
| GitHub.CommitSerialisedList | backend/github_utils.py:38-75 | given a lawful decoder, committing the serialisation of a list of string entries to an existing branch passes, and the branch then holds its old files overlaid with the entries |
| GitHub.CreateBranchSpec | backend/github_utils.py:24-36 | creating a branch succeeds exactly when the repository and its `main` exist and the ref does not; the new ref points at `main`'s head commit, every existing ref (`main` included) is unchanged, and nothing else changes; on failure nothing changes |
| GitHub.PullSpec | backend/github_utils.py:80-94 | the pull request is opened exactly when the repository, the head branch and `main` exist; it has the title from `PullTitle`, the full description as body, the branch as head and `main` as base; the returned URL is that pull request's address |
| GitHub.ForkSpec | backend/github_utils.py:13-22 | forking an unknown repository raises "Not Found" and changes nothing; otherwise the fork endpoint is called with the repository path; its error is re-raised with nothing changed; on success the URL is returned, no existing repository changes, and the only repository added is the fork at the returned URL's path, a copy of the source |
| GitHub.Forked | backend/github_utils.py:17 | a new fork has the source's refs and commit log and no pull requests |
| GitHub.Remote.GetContents | backend/github_utils.py:58 | the lookup finds a file exactly when the path is a string and names a file on the branch |
| GitHub.Remote.Update | backend/github_utils.py:59-65 | the remote changes exactly as `UpdateFile` says, or not at all when it raises |
| GitHub.Remote.Create | backend/github_utils.py:68-73 | the remote changes exactly as `CreateFile` says, or not at all when it raises |
| GitHub.GitHubManager.constructor | backend/github_utils.py:9-10 | the manager keeps its token and its client for the remote |
| GitHub.GitHubManager.ForkRepository | backend/github_utils.py:13-22 | the remote after the call and the returned URL or error are those of `ForkSpec` |
| GitHub.GitHubManager.CreateBranch | backend/github_utils.py:24-36 | the new remote state and outcome are those of `CreateBranchSpec` |
| GitHub.GitHubManager.CommitChanges | backend/github_utils.py:38-78 | the new remote state and outcome are those of `CommitSpec`: an unknown repository raises "Not Found" and undecodable text raises `ValueError`, both before anything is written |
| GitHub.GitHubManager.WriteAll | backend/github_utils.py:49-74 | the loop over the entries changes only the repository it writes to, and leaves it, with the outcome, as `ApplyAll` says: entries applied in order, the first failure stopping the loop with earlier writes kept |
| GitHub.GitHubManager.WriteEntry | backend/github_utils.py:50-74 | one turn of the loop: the remote changes as `ApplyEntry` says, or not at all when it fails |
| GitHub.GitHubManager.CreatePullRequest | backend/github_utils.py:80-94 | the new remote state and returned URL are those of `PullSpec` |
| Tasks.EnhancePrompt | backend/tasks.py:19-39 | the enhanced task is Gemini's reply with exactly its surrounding whitespace removed; a client error is re-raised unchanged |
| Tasks.EnhanceIdempotent | backend/tasks.py:34 | enhancing an already stripped reply changes nothing |
| Tasks.BranchNameShape | backend/tasks.py:67 | the branch name is `ai-agent-task-` followed by the first 20 characters of the enhanced task with each space turned into `-`; its length is 14 + min(20, len) |
| Tasks.BranchIsNotMain | backend/tasks.py:67-68 | the job's branch is never `main` |
| Tasks.BranchName | backend/tasks.py:67 | the branch name is `ai-agent-task-` plus at most 20 characters, and it contains no space |
| Tasks.ResultJson | backend/tasks.py:78-82 | the record has `status` "success" with `pr_url`, or `status` "error" with `message` |
| Tasks.Deliver | backend/tasks.py:66-78 | branch, commit and pull request run in that order on the fork, so the job has started 5 to 7 steps; success means all seven ran; no repository is added or removed |
| Tasks.RunSpec | backend/tasks.py:41-82 | between 1 and 7 steps start, in the fixed order enhance, fork, agent init, analyze, branch, commit, pull request; success means all seven ran; a job that stops at enhance or fork leaves the remote unchanged; no repository is ever removed |
| Tasks.WorkOnFork | backend/tasks.py:58-78 | after the fork, 3 to 7 steps have started, success means all seven, a stop at agent init or analyze leaves the remote unchanged, and the set of repositories does not change |
| Tasks.RunFails | backend/tasks.py:45-82 | a failed job stops at enhance exactly when Gemini's enhancement call raised, and at the fork exactly when forking raised; the record carries that exception's message; past the fork, the job's remote, record and step count are those of the work on the fork |
| Tasks.WorkFails | backend/tasks.py:58-82 | failed work on the fork stops at agent init exactly when `GeminiAgent()` raised, and at analyze exactly when `analyze_and_modify` raised, with that message; past that it is the delivery's failure |
| Tasks.DeliverFails | backend/tasks.py:66-82 | a failed delivery stops at the branch exactly when `create_branch` raised, at the commit exactly when `commit_changes` raised, and otherwise at the pull request, whose error it reports; the record carries `str(e)` of that exception |
| Tasks.RunSucceeds | backend/tasks.py:45-78 | a successful job had a successful enhancement and fork, analysed the fork with the enhanced task, and reports the URL of the pull request it opened on the fork, from the branch named after the enhanced task, with the enhanced task as its body, whose files are the fork's `main` overlaid with the decoded entries |
| Tasks.WorkSucceeds | backend/tasks.py:58-78 | successful work on the fork had a working agent and an accepted analysis, and is the successful delivery of that analysis |
| Tasks.DeliverSucceeds | backend/tasks.py:63-78 | on success the fork has the new branch, named from the enhanced task; its files are `main`'s files overlaid with the decoded entries; `main` has not moved; the newest pull request goes from that branch into `main` with the enhanced task as body; the job reports exactly that pull request's URL |
| Tasks.AnalyzeOutputAccepted | backend/llm_agents.py:60-64 | given a lawful decoder, whatever the as-written analysis step returns decodes to a list of modification entries, so the commit step never fails on it with `ValueError` or `TypeError` |
| Tasks.EntriesNeverInvalid | backend/github_utils.py:49-52 | a list of modification entries never makes the loop raise `ValueError` or `TypeError` |
| Tasks.MainNeverMoves | backend/tasks.py:45-82 | no run of the job moves the `main` ref of any repository |
| Tasks.DeliverKeepsMain | backend/tasks.py:66-75 | branch, commit and pull request leave every repository's `main` where it was |
| Tasks.BranchKeepsRefs | backend/github_utils.py:29-32 | creating a branch keeps every existing ref |
| Tasks.PullKeepsRefs | backend/github_utils.py:84-89 | opening a pull request keeps every ref |
| Tasks.CommitKeepsOtherRefs | backend/github_utils.py:49-74 | committing to a branch keeps every other ref |
| Tasks.RunDevAgentTask | backend/tasks.py:41-82 | the imperative job leaves the remote, returns the record, and counts the steps started exactly as `RunSpec` says |
| Tasks.WorkOnForkSteps | backend/tasks.py:58-78 | the steps after the fork act on the remote, return the record and count the steps exactly as `WorkOnFork` says |
| Tasks.DeliverChanges | backend/tasks.py:66-78 | the branch, commit and pull-request steps act on the remote exactly as `Deliver` says |
| App.Submit | backend/app.py:68-93 | no `user` in the session gives 401; a falsy body gives 400 "Invalid JSON payload"; a truthy non-object body raises `AttributeError`; a missing or falsy `repo_url` or `task_description` gives 400; exactly one job is enqueued only when both are truthy (and the session has a token), with (repo_url, task_description, token, user), and then the reply is 200 with its id |
| App.SubmitNeedsUser | backend/app.py:72-73 | without a user, the reply is 401 whatever the body and job id |
| App.SubmitReportsJobId | backend/app.py:85-93 | when a job is enqueued, the reply carries that job's id under `job_id` |
| App.TaskStatus | backend/app.py:99-110 | `PENDING` maps to "Task is still processing"; `SUCCESS` and `FAILURE` map to the same status with the result; a result JSON cannot serialise gives 500; any other state is echoed with "Task in unknown state"; a lookup failure gives 500 with status `ERROR` and the message |
| App.StatusReportsJobRecord | backend/app.py:103-104 | a finished job's record is reported unchanged under `result` with status `SUCCESS` |
| App.StripFence | backend/app.py:142 | `[7:-3].strip()` removes exactly the first 7 and the last 3 characters, whatever they are, and leaves nothing when they overlap |
| App.ReplyText | backend/app.py:138-142 | the reply is stripped, and only a reply starting with the fence marker has the fence cut off |
| App.FenceRemoved | backend/app.py:141-142 | a fenced block loses exactly its fence, and the text inside is stripped |
| App.CheckReply | backend/app.py:143-164 | an object with `enhanced_prompt` gives 200 with that value unchanged; an object, list or string without it (by `in`: list membership, substring) gives 500 with `success` false and the `KeyError` text; any other non-object gives a 500 with `success` false, and one that is not that `KeyError` reply is the outer handler's, with its message and the error's text; 200 is given only for an object carrying the key |
| App.Enhance | backend/app.py:112-165 | an exception from `request.get_json()` gives the outer 500 with its text; a non-object body gives the outer 500; a missing or falsy `prompt` gives 400 before Gemini's reply is looked at; a client error gives the outer 500; otherwise the fence-handled text is decoded, and a decoding error gives 500 with `success` false |
| App.MissingPromptFirst | backend/app.py:121-123 | without a prompt, the reply is 400 whatever Gemini and the decoder would do |
| App.EnhanceAcceptsObject | backend/app.py:138-150 | given a lawful decoder, a reply that is the serialisation of an object with `enhanced_prompt`, bare or in a fence, gives 200 with that value |
| App.ObjectReplyText | backend/app.py:138-142 | the fence handling gives back a serialised object exactly, bare or fenced |
| App.LoggedOut | backend/app.py:64-65 | the session keeps every entry except `user` and `github_token`, which are gone |
| App.LogoutIdempotent | backend/app.py:64-65 | logging out twice is the same as logging out once |
| App.SubmitAfterLogout | backend/app.py:64-73 | after a logout, submit replies 401 and enqueues nothing |
| App.Session.Logout | backend/app.py:60-66 | the session's entries become those of `LoggedOut` applied to the old ones |

## Left out

- Gemini.ExtractTruncatesValidReply: it proves that the text handed to `json.loads` is a strict prefix of the valid reply. It does not prove that the decoding then fails, because `json.loads` is opaque here. The prefix ends inside an unterminated string.
- Calls to Gemini (`generate_content`) and the prompt wording: parameters returning the reply text or the client's exception.
- `json.loads`: an opaque decoder. Only `Lawful` is assumed where a round trip is claimed.
- JSON floating-point numbers: only integers are modelled.
- Escapes in `repr` beyond the quote, the backslash, `\n`, `\r` and `\t` are not modelled. Other non-printable characters are written as themselves in error messages that embed a value.
- Python's regular-expression engine: the one pattern is stated as a substring search with the engine's leftmost, shortest-match result.
- GitHub's forking: the fork's URL comes from a parameter, so the user's account and the fork's name are not modelled. A new fork is a copy of the source's refs and log with no pull requests. When the returned path already exists, that repository is handed back unchanged.
- Authentication and tokens: not modelled.
- GitHub's exact error texts and HTTP statuses: a missing repository is "Not Found". Other client failures carry `GithubException` with a short message.
- The client's argument assertion on a non-string path or content is a `ClientError` with an empty message.
- Git ref-name validity is not checked: the remote accepts any branch name.
- GitHub's refusal of a pull request with no commits between the branches is not modelled.
- OAuth `login` and `authorize`, Flask and CORS setup, the Celery broker and queue, and logging are left out. They are plumbing with no decisions in them.
- `request.get_json()` in `submit`: the body is the parsed value it returned. `submit` reads it outside any `try`, so Flask answers an unparseable body with its own 400/415 replies, which are not modelled. In `enhance_prompt` the call is inside the outer `try`: `App.Enhance` takes what it returned or raised, and the exception's text (Flask's message) is a parameter.
- The job's arguments are taken as strings. A job enqueued with a non-string `repo_url` or `task_description` is not run through the pipeline model.
- `GitHubManager(github_token)` at backend/tasks.py:51 cannot fail in the model, so it is not a separate step.
- backend/prompt_enhancer.py and the frontend are not part of this model.
- Concurrency, cancellation and timeouts: the code has none. `run_dev_agent_task` runs one agent once, step after step. The Celery worker that runs jobs side by side is not modelled.

## Findings

| source | as written | input that shows it | evidently intended | confidence | as-written member | corrected member |
|---|---|---|---|---|---|---|
| backend/llm_agents.py:47-50 | the "fallback" regex `\[\s*{.*?}\s*\]` is applied to every stripped reply, and the lazy match ends at the first `}` followed by `]` | Gemini replies exactly `[{"file_path": "a.py", "content": "}]"}]`, a valid modification list whose content begins with `}]`; the match is `[{"file_path": "a.py", "content": "}]`, which ends inside a string, so `json.loads` raises and the job fails with "Invalid JSON response from Gemini API" | the comment calls it a fallback for replies with extra text: a reply that decodes as it is should be validated as it is | not executed | Gemini.ExtractTruncatesValidReply | Gemini.AnalyzeAndModifyIntended (with Gemini.IntendedAcceptsSerialisedList and Gemini.IntendedAcceptsMore). It validates the stripped reply as it is, and falls back to the regex extraction whenever that fails. A reply that decodes to something other than a valid list, such as `{"k": [...]}`, is still extracted as the code does. The job keeps the as-written step |
