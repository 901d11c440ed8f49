/** backend/tasks.py: the background job. `run_dev_agent_task` runs one agent once,
    through a fixed sequence of steps, and turns the first exception into an error
    record instead of raising.

    The calls to Gemini and to GitHub's fork endpoint are parameters (`Services`):
    the reply Gemini gives to each prompt, the fork address GitHub hands back, the
    `GOOGLE_API_KEY` setting, and `json.loads`. */
module Tasks {
  import opened Base
  import opened PyText
  import opened Json
  import opened Gemini
  import opened GitHub

  /** `enhance_prompt`, given Gemini's reply to the enhancement prompt: the reply
      without surrounding whitespace, or the client's exception re-raised. */
  function EnhancePrompt(reply: Result<string, Error>): (r: Result<string, Error>)
    ensures reply.Err? ==> r == Err(reply.error)
    ensures reply.Ok? ==>
      && r.Ok?
      && var s, t, n := reply.value, r.value, LeadingSpace(reply.value);
      && n + |t| <= |s| && s[n..n + |t|] == t
      && AllSpace(s[..n]) && AllSpace(s[n + |t|..])
      && (t == [] || (!IsSpace(t[0]) && !IsSpace(t[|t| - 1])))
  {
    match reply
    case Err(e) => Err(e)
    case Ok(text) => Ok(Strip(text))
  }

  /** Enhancing a reply that was already enhanced changes nothing. */
  lemma EnhanceIdempotent(text: string)
    ensures EnhancePrompt(Ok(EnhancePrompt(Ok(text)).value)) == EnhancePrompt(Ok(text))
  {
    StripIdempotent(text);
  }

  /** `f"ai-agent-task-{enhanced_task[:20].replace(' ', '-')}"` */
  function BranchName(task: string): (r: string)
    ensures |r| == 14 + |Take(task, 20)| && "ai-agent-task-" <= r
    ensures forall k :: 0 <= k < |r| ==> r[k] != ' '
  {
    ReplaceChar(Take(task, 20), ' ', '-');
    "ai-agent-task-" + Replace(Take(task, 20), " ", "-")
  }

  /** The branch name is the prefix, then the first 20 characters of the task with
      every space turned into `-`. */
  lemma BranchNameShape(task: string)
    ensures var n := if |task| < 20 then |task| else 20;
      && |BranchName(task)| == 14 + n
      && "ai-agent-task-" <= BranchName(task)
      && forall k :: 0 <= k < n ==> BranchName(task)[14 + k] == if task[k] == ' ' then '-' else task[k]
  {
    ReplaceChar(Take(task, 20), ' ', '-');
  }

  /** A branch the job creates never is `main`. */
  lemma BranchIsNotMain(task: string)
    ensures RefName(BranchName(task)) != Main
  {
    assert RefName(BranchName(task))[11] == 'a';
  }

  /** The record the job returns. */
  datatype TaskResult = Succeeded(prUrl: string) | Failed(message: string)

  /** `{"status": "success", "pr_url": u}` or `{"status": "error", "message": m}`. */
  function ResultJson(r: TaskResult): (j: Json)
    ensures WellFormed(j) && j.Object? && HasKey(j.fields, "status")
    ensures Get(j.fields, "status") == Some(Str(if r.Succeeded? then "success" else "error"))
    ensures r.Succeeded? ==> Get(j.fields, "pr_url") == Some(Str(r.prUrl))
    ensures r.Failed? ==> Get(j.fields, "message") == Some(Str(r.message))
  {
    var second := if r.Succeeded? then Field("pr_url", Str(r.prUrl)) else Field("message", Str(r.message));
    var fields := [Field("status", Str(if r.Succeeded? then "success" else "error")), second];
    assert fields[1..] == [second];
    assert fields[0].key == "status" && "status"[0] != second.key[0];
    Object(fields)
  }

  /** What the job depends on outside the model. */
  datatype Services = Services(
    enhanceReply: string -> Result<string, Error>,            // Gemini's reply to the enhancement prompt
    fork: string -> Result<string, Error>,                    // the address of the fork of a repository path
    apiKey: Option<string>,                                   // GOOGLE_API_KEY
    analyzeReply: (string, string) -> Result<string, Error>,  // Gemini's reply for (repository URL, task)
    decode: Decoder)                                          // json.loads

  /** The remote after the job, the record it returns, and how many of its steps it
      started. The job runs its steps in one fixed order (1 enhance the task, 2 fork,
      3 create the agent, 4 analyze, 5 create the branch, 6 commit, 7 open the pull
      request), so `started` names the steps run, the last one being the step that
      raised when the job failed. */
  datatype Run = Run(repos: map<string, Repo>, result: TaskResult, started: nat)

  /** The three GitHub steps, on the fork: create the branch, commit the
      modifications, open the pull request. */
  function Deliver(repos: map<string, Repo>, forkUrl: string, enhanced: string, mods: string, decode: Decoder): (run: Run)
    ensures 5 <= run.started <= 7
    ensures run.result.Succeeded? ==> run.started == 7
    ensures run.repos.Keys == repos.Keys
  {
    var branch := BranchName(enhanced);
    var b := CreateBranchSpec(repos, forkUrl, branch);
    if b.1.Fail? then Run(b.0, Failed(b.1.error.message), 5)
    else
      var c := CommitSpec(b.0, forkUrl, branch, mods, decode);
      if c.1.Fail? then Run(c.0, Failed(c.1.error.message), 6)
      else
        var p := PullSpec(c.0, forkUrl, branch, enhanced);
        match p.1
        case Err(e) => Run(p.0, Failed(e.message), 7)
        case Ok(u) => Run(p.0, Succeeded(u), 7)
  }

  /** `run_dev_agent_task(repo_url, task_description, ...)`: the steps in their fixed
      order; the first exception ends the job with its message, and no later step
      runs. Analysis, branch, commit and pull request all act on the fork. */
  function RunSpec(repos: map<string, Repo>, svc: Services, url: string, task: string): (run: Run)
    ensures 1 <= run.started <= 7
    ensures run.result.Succeeded? ==> run.started == 7
    ensures run.started <= 2 ==> run.repos == repos
    ensures repos.Keys <= run.repos.Keys
  {
    match EnhancePrompt(svc.enhanceReply(task))
    case Err(e) => Run(repos, Failed(e.message), 1)
    case Ok(enhanced) =>
      var f := ForkSpec(repos, url, svc.fork);
      assert repos.Keys <= f.0.Keys && (f.1.Err? ==> f.0 == repos);
      match f.1
      case Err(e) => Run(f.0, Failed(e.message), 2)
      case Ok(forkUrl) => WorkOnFork(f.0, svc, forkUrl, enhanced)
  }

  /** The steps after the fork: start the agent, analyse the fork, deliver. */
  function WorkOnFork(repos: map<string, Repo>, svc: Services, forkUrl: string, enhanced: string): (run: Run)
    ensures 3 <= run.started <= 7
    ensures run.result.Succeeded? ==> run.started == 7
    ensures run.started <= 4 ==> run.repos == repos
    ensures run.repos.Keys == repos.Keys
  {
    match NewGeminiAgent(svc.apiKey)
    case Err(e) => Run(repos, Failed(e.message), 3)
    case Ok(_) =>
      match AnalyzeAndModify(svc.analyzeReply(forkUrl, enhanced), svc.decode)
      case Err(e) => Run(repos, Failed(e.message), 4)
      case Ok(mods) => Deliver(repos, forkUrl, enhanced, mods, svc.decode)
  }

  /** A failed job reports the message of the step that raised: the last step it
      started, every earlier one having succeeded. After the fork, the job's record
      and remote are those of the work on the fork. */
  lemma RunFails(repos: map<string, Repo>, svc: Services, url: string, task: string)
    requires RunSpec(repos, svc, url, task).result.Failed?
    ensures var run := RunSpec(repos, svc, url, task);
      var n := run.started;
      var msg := run.result.message;
      var reply := svc.enhanceReply(task);
      && (n == 1 <==> reply.Err?)
      && (n == 1 ==> msg == reply.error.message)
      && (n > 1 ==>
        var f := ForkSpec(repos, url, svc.fork);
        && (n == 2 <==> f.1.Err?)
        && (n == 2 ==> msg == f.1.error.message)
        && (n > 2 ==> run == WorkOnFork(f.0, svc, f.1.value, Strip(reply.value))))
  {
  }

  /** The work on the fork fails with the message of the agent's construction, of the
      analysis, or of the delivery, whichever raised first. */
  lemma WorkFails(repos: map<string, Repo>, svc: Services, forkUrl: string, enhanced: string)
    requires WorkOnFork(repos, svc, forkUrl, enhanced).result.Failed?
    ensures var run := WorkOnFork(repos, svc, forkUrl, enhanced);
      var n := run.started;
      var msg := run.result.message;
      && (n == 3 <==> NewGeminiAgent(svc.apiKey).Err?)
      && (n == 3 ==> msg == NewGeminiAgent(svc.apiKey).error.message)
      && (n > 3 ==>
        var mods := AnalyzeAndModify(svc.analyzeReply(forkUrl, enhanced), svc.decode);
        && (n == 4 <==> mods.Err?)
        && (n == 4 ==> msg == mods.error.message)
        && (n > 4 ==> run == Deliver(repos, forkUrl, enhanced, mods.value, svc.decode)))
  {
  }

  /** A delivery that fails reports the message of the GitHub call that raised. */
  lemma DeliverFails(repos: map<string, Repo>, forkUrl: string, enhanced: string, mods: string, decode: Decoder)
    requires Deliver(repos, forkUrl, enhanced, mods, decode).result.Failed?
    ensures var run := Deliver(repos, forkUrl, enhanced, mods, decode);
      var n := run.started;
      var msg := run.result.message;
      var branch := BranchName(enhanced);
      var b := CreateBranchSpec(repos, forkUrl, branch);
      && (n == 5 <==> b.1.Fail?)
      && (n == 5 ==> msg == b.1.error.message)
      && (n > 5 ==>
        var c := CommitSpec(b.0, forkUrl, branch, mods, decode);
        && (n == 6 <==> c.1.Fail?)
        && (n == 6 ==> msg == c.1.error.message)
        && (n == 7 ==>
          var p := PullSpec(c.0, forkUrl, branch, enhanced);
          p.1.Err? && msg == p.1.error.message))
  {
  }

  /** A successful job analysed the fork with the enhanced task, and reports the pull
      request it opened there: from the branch named after the enhanced task, whose
      files are the fork's `main` overlaid with the entries, into `main`, with the
      enhanced task as its body. */
  lemma RunSucceeds(repos: map<string, Repo>, svc: Services, url: string, task: string)
    requires RunSpec(repos, svc, url, task).result.Succeeded?
    ensures var run := RunSpec(repos, svc, url, task);
      && svc.enhanceReply(task).Ok?
      && var enhanced := Strip(svc.enhanceReply(task).value);
      var f := ForkSpec(repos, url, svc.fork);
      && f.1.Ok?
      && var fork := RepoPath(f.1.value);
      var mods := AnalyzeAndModify(svc.analyzeReply(f.1.value, enhanced), svc.decode);
      var ref := RefName(BranchName(enhanced));
      && mods.Ok?
      && fork in f.0 && fork in run.repos
      && Main in f.0[fork].refs && ref in run.repos[fork].refs
      && svc.decode(mods.value).Ok? && Iterated(svc.decode(mods.value).value).Ok?
      && var items := Iterated(svc.decode(mods.value).value).value;
      && (forall i :: 0 <= i < |items| ==> Writable(items[i]))
      && run.repos[fork].refs[ref].tree == Overlay(f.0[fork].refs[Main].tree, items)
      && |run.repos[fork].pulls| == |f.0[fork].pulls| + 1
      && run.repos[fork].pulls[|f.0[fork].pulls|] ==
         PullRequest(|f.0[fork].pulls| + 1, PullTitle(enhanced), enhanced, BranchName(enhanced), "main")
      && run.result.prUrl == PullUrl(fork, |f.0[fork].pulls| + 1)
  {
    var enhanced := Strip(svc.enhanceReply(task).value);
    var f := ForkSpec(repos, url, svc.fork);
    WorkSucceeds(f.0, svc, f.1.value, enhanced);
    var mods := AnalyzeAndModify(svc.analyzeReply(f.1.value, enhanced), svc.decode);
    DeliverSucceeds(f.0, f.1.value, enhanced, mods.value, svc.decode);
  }

  /** Successful work on the fork is a successful delivery of the analysis. */
  lemma WorkSucceeds(repos: map<string, Repo>, svc: Services, forkUrl: string, enhanced: string)
    requires WorkOnFork(repos, svc, forkUrl, enhanced).result.Succeeded?
    ensures var mods := AnalyzeAndModify(svc.analyzeReply(forkUrl, enhanced), svc.decode);
      && NewGeminiAgent(svc.apiKey).Ok? && mods.Ok?
      && var d := Deliver(repos, forkUrl, enhanced, mods.value, svc.decode);
      && WorkOnFork(repos, svc, forkUrl, enhanced) == d
  {
  }

  /** After a successful delivery the fork holds the new branch, whose files are
      those of `main` overlaid with the decoded entries, `main` has not moved, and
      the newest pull request goes from that branch into `main` with the enhanced
      description as its body; the job reports that pull request's address. */
  lemma {:induction false} DeliverSucceeds(repos: map<string, Repo>, forkUrl: string, enhanced: string, mods: string, decode: Decoder)
    requires Deliver(repos, forkUrl, enhanced, mods, decode).result.Succeeded?
    ensures var fork := RepoPath(forkUrl);
      var run := Deliver(repos, forkUrl, enhanced, mods, decode);
      var ref := RefName(BranchName(enhanced));
      && fork in repos && fork in run.repos
      && Main in repos[fork].refs && ref !in repos[fork].refs
      && decode(mods).Ok? && Iterated(decode(mods).value).Ok?
      && var items := Iterated(decode(mods).value).value;
      && (forall i :: 0 <= i < |items| ==> Writable(items[i]))
      && ref in run.repos[fork].refs
      && run.repos[fork].refs[ref].tree == Overlay(repos[fork].refs[Main].tree, items)
      && Main in run.repos[fork].refs && run.repos[fork].refs[Main] == repos[fork].refs[Main]
      && |run.repos[fork].pulls| == |repos[fork].pulls| + 1
      && run.repos[fork].pulls[|repos[fork].pulls|] ==
         PullRequest(|repos[fork].pulls| + 1, PullTitle(enhanced), enhanced, BranchName(enhanced), "main")
      && run.result.prUrl == PullUrl(fork, |repos[fork].pulls| + 1)
  {
    var fork := RepoPath(forkUrl);
    var branch := BranchName(enhanced);
    var ref := RefName(branch);
    BranchIsNotMain(enhanced);
    var b := CreateBranchSpec(repos, forkUrl, branch);
    var c := CommitSpec(b.0, forkUrl, branch, mods, decode);
    var items := Iterated(decode(mods).value).value;
    var r := b.0[fork];
    assert c.0[fork] == ApplyAll(r, branch, items).0;
    ApplyAllPasses(r, branch, items);
    if items != [] {
      ApplyAllOverlay(r, branch, items);
    }
  }

  /** Given a lawful decoder, whatever `analyze_and_modify` returns passes the entry
      check of `commit_changes`: it decodes to a list of modification entries, so
      committing it never raises `ValueError` or `TypeError`. */
  lemma AnalyzeOutputAccepted(reply: Result<string, Error>, decode: Decoder, repos: map<string, Repo>, url: string, branch: string)
    requires Lawful(decode)
    requires AnalyzeAndModify(reply, decode).Ok?
    ensures var mods := AnalyzeAndModify(reply, decode).value;
      && decode(mods).Ok? && decode(mods).value.Array?
      && (forall i :: 0 <= i < |decode(mods).value.items| ==> IsModification(decode(mods).value.items[i]))
      && var out := CommitSpec(repos, url, branch, mods, decode).1;
      && (out.Fail? ==> out.error.kind != ValueError && out.error.kind != TypeError)
  {
    var mods := AnalyzeAndModify(reply, decode).value;
    AnalyzeRoundTrip(reply, decode);
    var v := decode(mods).value;
    if RepoPath(url) in repos {
      EntriesNeverInvalid(repos[RepoPath(url)], branch, v.items);
    }
  }

  /** A loop over modification entries fails, if at all, on the remote's side. */
  lemma {:induction false} EntriesNeverInvalid(r: Repo, branch: string, items: seq<Json>)
    requires forall i :: 0 <= i < |items| ==> IsModification(items[i])
    ensures var out := ApplyAll(r, branch, items).1;
      out.Fail? ==> out.error.kind != ValueError && out.error.kind != TypeError
    decreases items
  {
    if items != [] {
      match ApplyEntry(r, branch, items[0])
      case Err(e) =>
        var filePath := Get(items[0].fields, "file_path").value;
        var content := Get(items[0].fields, "content").value;
        assert e == CreateFile(r, branch, filePath, "Create " + PyStr(filePath) + " for task", content).error;
      case Ok(r') =>
        EntriesNeverInvalid(r', branch, items[1..]);
    }
  }

  /** Every repository that has `ref` still has it, at the same commit. */
  predicate KeepsRef(before: map<string, Repo>, after: map<string, Repo>, ref: string) {
    forall p :: p in before && ref in before[p].refs ==>
      p in after && ref in after[p].refs && after[p].refs[ref] == before[p].refs[ref]
  }

  /** No step of the job moves the `main` branch of any repository. */
  lemma MainNeverMoves(repos: map<string, Repo>, svc: Services, url: string, task: string)
    ensures KeepsRef(repos, RunSpec(repos, svc, url, task).repos, Main)
  {
    var run := RunSpec(repos, svc, url, task);
    if run.started > 4 {
      var enhanced := EnhancePrompt(svc.enhanceReply(task)).value;
      var f := ForkSpec(repos, url, svc.fork);
      var mods := AnalyzeAndModify(svc.analyzeReply(f.1.value, enhanced), svc.decode).value;
      DeliverKeepsMain(f.0, f.1.value, enhanced, mods, svc.decode);
      assert KeepsRef(repos, f.0, Main);
    }
  }

  lemma DeliverKeepsMain(repos: map<string, Repo>, forkUrl: string, enhanced: string, mods: string, decode: Decoder)
    ensures KeepsRef(repos, Deliver(repos, forkUrl, enhanced, mods, decode).repos, Main)
  {
    var branch := BranchName(enhanced);
    BranchIsNotMain(enhanced);
    var b := CreateBranchSpec(repos, forkUrl, branch);
    BranchKeepsRefs(repos, forkUrl, branch, Main);
    if b.1 == Pass {
      var c := CommitSpec(b.0, forkUrl, branch, mods, decode);
      CommitKeepsOtherRefs(b.0, forkUrl, branch, mods, decode, Main);
      if c.1 == Pass {
        PullKeepsRefs(c.0, forkUrl, branch, enhanced, Main);
      }
    }
  }

  lemma BranchKeepsRefs(repos: map<string, Repo>, url: string, branch: string, ref: string)
    ensures KeepsRef(repos, CreateBranchSpec(repos, url, branch).0, ref)
  {
  }

  lemma PullKeepsRefs(repos: map<string, Repo>, url: string, branch: string, task: string, ref: string)
    ensures KeepsRef(repos, PullSpec(repos, url, branch, task).0, ref)
  {
  }

  /** Committing touches no ref but the branch's own. */
  lemma CommitKeepsOtherRefs(repos: map<string, Repo>, url: string, branch: string, mods: string, decode: Decoder, ref: string)
    requires ref != RefName(branch)
    ensures KeepsRef(repos, CommitSpec(repos, url, branch, mods, decode).0, ref)
  {
    var path := RepoPath(url);
    if path in repos && decode(mods).Ok? && Iterated(decode(mods).value).Ok? {
      var items := Iterated(decode(mods).value).value;
      var res := ApplyAll(repos[path], branch, items);
      assert CommitSpec(repos, url, branch, mods, decode).0 == repos[path := res.0];
    }
  }

  /** The job as the worker runs it: each step is a call on the GitHub client or a
      pure computation, and the first failure returns the error record. */
  method RunDevAgentTask(remote: Remote, svc: Services, url: string, task: string, token: string, user: string)
    returns (result: TaskResult, started: nat)
    modifies remote
    ensures Run(remote.repos, result, started) == RunSpec(old(remote.repos), svc, url, task)
  {
    started := 1;
    var enhanced := EnhancePrompt(svc.enhanceReply(task));
    if enhanced.Err? {
      return Failed(enhanced.error.message), started;
    }
    var manager := new GitHubManager(token, remote);
    started := 2;
    var forkUrl := manager.ForkRepository(url, svc.fork);
    if forkUrl.Err? {
      return Failed(forkUrl.error.message), started;
    }
    result, started := WorkOnForkSteps(manager, svc, forkUrl.value, enhanced.value);
  }

  /** The steps of the job after the fork. */
  method WorkOnForkSteps(manager: GitHubManager, svc: Services, forkUrl: string, enhanced: string)
    returns (result: TaskResult, started: nat)
    modifies manager.remote
    ensures Run(manager.remote.repos, result, started) == WorkOnFork(old(manager.remote.repos), svc, forkUrl, enhanced)
  {
    started := 3;
    var agent := NewGeminiAgent(svc.apiKey);
    if agent.Err? {
      return Failed(agent.error.message), started;
    }
    started := 4;
    var mods := AnalyzeAndModify(svc.analyzeReply(forkUrl, enhanced), svc.decode);
    if mods.Err? {
      return Failed(mods.error.message), started;
    }
    result, started := DeliverChanges(manager, forkUrl, enhanced, mods.value, svc.decode);
  }

  /** The three GitHub steps of the job, on the fork. */
  method DeliverChanges(manager: GitHubManager, forkUrl: string, enhanced: string, mods: string, decode: Decoder)
    returns (result: TaskResult, started: nat)
    modifies manager.remote
    ensures Run(manager.remote.repos, result, started) == Deliver(old(manager.remote.repos), forkUrl, enhanced, mods, decode)
  {
    var branch := BranchName(enhanced);
    started := 5;
    var created := manager.CreateBranch(forkUrl, branch);
    if created.Fail? {
      return Failed(created.error.message), started;
    }
    started := 6;
    var committed := manager.CommitChanges(forkUrl, branch, mods, decode);
    if committed.Fail? {
      return Failed(committed.error.message), started;
    }
    started := 7;
    var pr := manager.CreatePullRequest(forkUrl, branch, enhanced);
    if pr.Err? {
      return Failed(pr.error.message), started;
    }
    result := Succeeded(pr.value);
  }
}
