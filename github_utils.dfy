/** backend/github_utils.py: `GitHubManager`, the backend's calls to GitHub.

    The remote is a map from `owner/name` paths to repositories. A repository holds
    its refs (`refs/heads/<branch>` to the commit at the branch head), the commits
    written so far, a counter for fresh commit SHAs, and its pull requests. A commit
    carries the whole file table of its branch (path to text). The fork's URL comes
    from the `fork` parameter; a fork that does not exist yet is added at its path as
    a copy of the source's refs and log, with no pull requests. Authentication is not
    modelled. */
module GitHub {
  import opened Base
  import opened PyText
  import opened Json

  datatype Commit = Commit(sha: nat, message: string, tree: map<string, string>)

  datatype PullRequest = PullRequest(number: nat, title: string, body: string, head: string, base: string)

  datatype Repo = Repo(refs: map<string, Commit>, nextSha: nat, log: seq<Commit>, pulls: seq<PullRequest>)

  const Prefix := "https://github.com/"

  /** The error `get_repo` raises for a path naming no repository. */
  const NotFound := Error(GithubException, "Not Found")

  // ---------------------------------------------------------------------------
  // Names derived from the inputs

  /** `repo_url.replace("https://github.com/", "")` */
  function RepoPath(url: string): (r: string)
    ensures |r| <= |url|
  {
    Replace(url, Prefix, "")
  }

  /** A URL made of the prefix and a path that does not itself contain the prefix
      yields exactly that path. */
  lemma RepoPathOfUrl(path: string)
    requires !Occurs(Prefix, path)
    ensures RepoPath(Prefix + path) == path
  {
    RemoveLeading(Prefix, path);
  }

  /** A URL in which the prefix does not occur passes through unchanged. */
  lemma RepoPathWithoutPrefix(url: string)
    requires !Occurs(Prefix, url)
    ensures RepoPath(url) == url
  {
    ReplaceAbsent(url, Prefix, "");
  }

  /** `f"refs/heads/{branch_name}"` */
  function RefName(branch: string): string {
    "refs/heads/" + branch
  }

  /** Distinct branches have distinct refs. */
  lemma RefNameInjective(a: string, b: string)
    ensures RefName(a) == RefName(b) <==> a == b
  {
    if RefName(a) == RefName(b) {
      assert a == RefName(a)[11..] && b == RefName(b)[11..];
    }
  }

  /** `f"AI Agent: {task_description[:50]}"`: the prefix, then the description cut to
      at most 50 characters. */
  function PullTitle(task: string): (r: string)
    ensures "AI Agent: " <= r && |r| == 10 + (if |task| < 50 then |task| else 50)
    ensures r[10..] <= task
    ensures |task| <= 50 ==> r[10..] == task
  {
    var r := "AI Agent: " + Take(task, 50);
    assert r[10..] == Take(task, 50);
    r
  }

  /** The web address of pull request `number` of the repository at `path`. */
  function PullUrl(path: string, number: nat): string {
    Prefix + path + "/pull/" + Decimal(number)
  }

  // ---------------------------------------------------------------------------
  // The remote operations, as functions of the repository state

  /** Whether `get_contents(file_path, ref=branch)` finds a file. */
  predicate Found(r: Repo, branch: string, filePath: Json) {
    filePath.Str? && RefName(branch) in r.refs && filePath.s in r.refs[RefName(branch)].tree
  }

  /** A new commit on `branch` with the given file table: it gets the next SHA,
      becomes the branch head and is appended to the log. */
  function AddCommit(r: Repo, branch: string, message: string, tree: map<string, string>): (r': Repo)
    ensures r'.refs == r.refs[RefName(branch) := Commit(r.nextSha, message, tree)]
    ensures r'.log == r.log + [Commit(r.nextSha, message, tree)]
    ensures r'.nextSha == r.nextSha + 1 && r'.pulls == r.pulls
  {
    var c := Commit(r.nextSha, message, tree);
    Repo(r.refs[RefName(branch) := c], r.nextSha + 1, r.log + [c], r.pulls)
  }

  /** `update_file(file_path, message, content, sha, branch=branch)`. The client
      accepts only text for the path and the content; the server rejects a missing
      branch or file. */
  function UpdateFile(r: Repo, branch: string, filePath: Json, message: string, content: Json): (res: Result<Repo, Error>)
    ensures res.Ok? <==> Found(r, branch, filePath) && content.Str?
    ensures res.Ok? ==> res.value == AddCommit(r, branch, message,
      r.refs[RefName(branch)].tree[filePath.s := content.s])
  {
    if !filePath.Str? || !content.Str? then Err(Error(ClientError, ""))
    else if RefName(branch) !in r.refs then Err(Error(GithubException, "Branch not found"))
    else if filePath.s !in r.refs[RefName(branch)].tree then Err(Error(GithubException, "Not Found"))
    else Ok(AddCommit(r, branch, message, r.refs[RefName(branch)].tree[filePath.s := content.s]))
  }

  /** `create_file(file_path, message, content, branch=branch)`. The client accepts
      only text; the server rejects a missing branch or a path that already holds a
      file. */
  function CreateFile(r: Repo, branch: string, filePath: Json, message: string, content: Json): (res: Result<Repo, Error>)
    ensures res.Ok? <==>
      filePath.Str? && content.Str? && RefName(branch) in r.refs && !Found(r, branch, filePath)
    ensures res.Ok? ==> res.value == AddCommit(r, branch, message,
      r.refs[RefName(branch)].tree[filePath.s := content.s])
  {
    if !filePath.Str? || !content.Str? then Err(Error(ClientError, ""))
    else if RefName(branch) !in r.refs then Err(Error(GithubException, "Branch not found"))
    else if filePath.s in r.refs[RefName(branch)].tree then Err(Error(GithubException, "Invalid request: sha wasn't supplied"))
    else Ok(AddCommit(r, branch, message, r.refs[RefName(branch)].tree[filePath.s := content.s]))
  }

  // ---------------------------------------------------------------------------
  // commit_changes

  /** An entry the loop can write: a dictionary with a text path and text content. */
  predicate Writable(v: Json) {
    IsModification(v) && Get(v.fields, "file_path").value.Str? && Get(v.fields, "content").value.Str?
  }

  function EntryPath(v: Json): string
    requires Writable(v)
  {
    Get(v.fields, "file_path").value.s
  }

  function EntryContent(v: Json): string
    requires Writable(v)
  {
    Get(v.fields, "content").value.s
  }

  /** The `ValueError` for an entry that is not a modification. */
  function InvalidEntry(v: Json): Error {
    Error(ValueError, "Invalid modification format: " + PyStr(v))
  }

  /** One turn of the loop: reject an entry that is not a modification; otherwise
      update the file when the lookup finds it and create it when the lookup fails.
      An update that raises falls into the same bare `except` and becomes a create. */
  function ApplyEntry(r: Repo, branch: string, mod: Json): (res: Result<Repo, Error>)
    ensures !IsModification(mod) ==> res == Err(InvalidEntry(mod))
    ensures res.Ok? <==> Writable(mod) && RefName(branch) in r.refs
    ensures res.Ok? ==>
      var p := EntryPath(mod);
      var message := (if p in r.refs[RefName(branch)].tree then "Update " else "Create ") + p + " for task";
      res.value == AddCommit(r, branch, message, r.refs[RefName(branch)].tree[p := EntryContent(mod)])
  {
    if !IsModification(mod) then Err(InvalidEntry(mod))
    else
      var filePath := Get(mod.fields, "file_path").value;
      var content := Get(mod.fields, "content").value;
      var create := CreateFile(r, branch, filePath, "Create " + PyStr(filePath) + " for task", content);
      if Found(r, branch, filePath) then
        match UpdateFile(r, branch, filePath, "Update " + PyStr(filePath) + " for task", content)
        case Ok(r') => Ok(r')
        case Err(_) => create
      else create
  }

  /** Once an entry is written, `get_contents` finds its path on the branch with the
      entry's content, so a later entry for the same path takes the update branch. */
  lemma WrittenIsFound(r: Repo, branch: string, mod: Json)
    requires ApplyEntry(r, branch, mod).Ok?
    ensures var r' := ApplyEntry(r, branch, mod).value;
      && Found(r', branch, Str(EntryPath(mod)))
      && r'.refs[RefName(branch)].tree[EntryPath(mod)] == EntryContent(mod)
  {
  }

  /** The loop over the entries: each entry is applied to the state the previous ones
      left, and the first error stops the loop where it is, nothing undone. */
  function ApplyAll(r: Repo, branch: string, items: seq<Json>): (res: (Repo, Outcome<Error>))
    ensures forall ref :: ref != RefName(branch) ==>
      (ref in res.0.refs <==> ref in r.refs) && (ref in r.refs ==> res.0.refs[ref] == r.refs[ref])
    ensures res.0.pulls == r.pulls && r.log <= res.0.log
    decreases items
  {
    if items == [] then (r, Pass)
    else
      match ApplyEntry(r, branch, items[0])
      case Err(e) => (r, Fail(e))
      case Ok(r') => ApplyAll(r', branch, items[1..])
  }

  /** Running the loop over two lists in turn is running it over their join. */
  lemma {:induction false} ApplyAllAppend(r: Repo, branch: string, xs: seq<Json>, ys: seq<Json>)
    ensures ApplyAll(r, branch, xs + ys) ==
      var first := ApplyAll(r, branch, xs);
      if first.1.Fail? then first else ApplyAll(first.0, branch, ys)
    decreases xs
  {
    if xs == [] {
      assert xs + ys == ys;
    } else {
      assert (xs + ys)[0] == xs[0] && (xs + ys)[1..] == xs[1..] + ys;
      match ApplyEntry(r, branch, xs[0])
      case Err(_) =>
      case Ok(r') => ApplyAllAppend(r', branch, xs[1..], ys);
    }
  }

  /** No rollback: when entry `k` is not a modification, the loop raises the
      `ValueError` for it with every earlier entry already written. */
  lemma NoRollback(r: Repo, branch: string, items: seq<Json>, k: nat)
    requires k < |items| && !IsModification(items[k])
    requires ApplyAll(r, branch, items[..k]).1 == Pass
    ensures ApplyAll(r, branch, items) == (ApplyAll(r, branch, items[..k]).0, Fail(InvalidEntry(items[k])))
  {
    assert items == items[..k] + items[k..];
    ApplyAllAppend(r, branch, items[..k], items[k..]);
    assert items[k..][0] == items[k];
  }

  /** The loop completes exactly when every entry is writable and, if there is any
      entry, the branch exists. */
  lemma {:induction false} ApplyAllPasses(r: Repo, branch: string, items: seq<Json>)
    ensures ApplyAll(r, branch, items).1 == Pass <==>
      (items == [] || RefName(branch) in r.refs) && forall i :: 0 <= i < |items| ==> Writable(items[i])
    decreases items
  {
    if items != [] {
      match ApplyEntry(r, branch, items[0])
      case Err(_) =>
        assert !Writable(items[0]) || RefName(branch) !in r.refs;
      case Ok(r') =>
        assert ApplyAll(r, branch, items) == ApplyAll(r', branch, items[1..]);
        ApplyAllPasses(r', branch, items[1..]);
        assert RefName(branch) in r'.refs && Writable(items[0]);
        assert forall i :: 1 <= i < |items| ==> items[i] == items[1..][i - 1];
    }
  }

  /** The reference for a completed loop: the branch's file table with each entry's
      path set to its content, in list order. */
  function Overlay(tree: map<string, string>, items: seq<Json>): map<string, string>
    requires forall i :: 0 <= i < |items| ==> Writable(items[i])
    decreases items
  {
    if items == [] then tree
    else Overlay(tree[EntryPath(items[0]) := EntryContent(items[0])], items[1..])
  }

  /** A completed loop leaves the branch head holding the overlay of the entries on
      the table it started from, after one commit per entry. */
  lemma {:induction false} ApplyAllOverlay(r: Repo, branch: string, items: seq<Json>)
    requires ApplyAll(r, branch, items).1 == Pass && items != []
    ensures forall i :: 0 <= i < |items| ==> Writable(items[i])
    ensures RefName(branch) in r.refs && RefName(branch) in ApplyAll(r, branch, items).0.refs
    ensures ApplyAll(r, branch, items).0.refs[RefName(branch)].tree ==
      Overlay(r.refs[RefName(branch)].tree, items)
    ensures |ApplyAll(r, branch, items).0.log| == |r.log| + |items|
    decreases items
  {
    ApplyAllPasses(r, branch, items);
    var r' := ApplyEntry(r, branch, items[0]).value;
    if |items| > 1 {
      ApplyAllOverlay(r', branch, items[1..]);
    }
  }

  /** The entries' file paths, in list order. */
  function Paths(items: seq<Json>): (r: seq<string>)
    requires forall i :: 0 <= i < |items| ==> Writable(items[i])
    ensures |r| == |items| && forall i :: 0 <= i < |items| ==> r[i] == EntryPath(items[i])
    decreases items
  {
    if items == [] then [] else [EntryPath(items[0])] + Paths(items[1..])
  }

  /** The overlay holds exactly the table's paths and the entries' paths. */
  lemma {:induction false} OverlayKeys(tree: map<string, string>, items: seq<Json>)
    requires forall i :: 0 <= i < |items| ==> Writable(items[i])
    ensures forall p :: p in Overlay(tree, items) <==> p in tree || p in Paths(items)
    decreases items
  {
    if items != [] {
      OverlayKeys(tree[EntryPath(items[0]) := EntryContent(items[0])], items[1..]);
    }
  }

  /** The overlay gives a path the content of the last entry that names it. */
  lemma {:induction false} OverlayLastWins(tree: map<string, string>, items: seq<Json>, i: nat)
    requires forall j :: 0 <= j < |items| ==> Writable(items[j])
    requires i < |items|
    requires forall j :: i < j < |items| ==> EntryPath(items[j]) != EntryPath(items[i])
    ensures EntryPath(items[i]) in Overlay(tree, items)
    ensures Overlay(tree, items)[EntryPath(items[i])] == EntryContent(items[i])
    decreases items
  {
    var tree' := tree[EntryPath(items[0]) := EntryContent(items[0])];
    assert forall j :: 0 <= j < |items| - 1 ==> items[1..][j] == items[j + 1];
    if i == 0 {
      OverlayUntouched(tree', items[1..], EntryPath(items[0]));
    } else {
      assert items[1..][i - 1] == items[i];
      OverlayLastWins(tree', items[1..], i - 1);
    }
  }

  /** A path no entry names keeps what the table held, or stays absent. */
  lemma {:induction false} OverlayUntouched(tree: map<string, string>, items: seq<Json>, p: string)
    requires forall j :: 0 <= j < |items| ==> Writable(items[j])
    requires forall j :: 0 <= j < |items| ==> EntryPath(items[j]) != p
    ensures p in Overlay(tree, items) <==> p in tree
    ensures p in tree ==> Overlay(tree, items)[p] == tree[p]
    decreases items
  {
    if items != [] {
      OverlayUntouched(tree[EntryPath(items[0]) := EntryContent(items[0])], items[1..], p);
    }
  }

  /** What `for mod in mods` runs over once `len(mods)` has succeeded: a list's
      elements, a dictionary's keys, a string's characters. Anything else has no
      `len()`. */
  function Iterated(v: Json): (r: Result<seq<Json>, Error>)
    ensures v.Array? ==> r == Ok(v.items)
    ensures (v.Null? || v.Bool? || v.Int?) ==>
      r == Err(Error(TypeError, "object of type '" + TypeName(v) + "' has no len()"))
    ensures v.Object? ==> (r.Ok? && |r.value| == |v.fields| &&
      forall i :: 0 <= i < |v.fields| ==> r.value[i] == Str(v.fields[i].key))
    ensures v.Str? ==> (r.Ok? && |r.value| == |v.s| &&
      forall i :: 0 <= i < |v.s| ==> r.value[i] == Str([v.s[i]]))
  {
    match v
    case Array(items) => Ok(items)
    case Object(fields) => Ok(seq(|fields|, i requires 0 <= i < |fields| => Str(fields[i].key)))
    case Str(s) => Ok(seq(|s|, i requires 0 <= i < |s| => Str([s[i]])))
    case _ => Err(Error(TypeError, "object of type '" + TypeName(v) + "' has no len()"))
  }

  /** `commit_changes` as a function of the remote: look the repository up, decode the
      text, and run the loop on the branch. */
  function CommitSpec(repos: map<string, Repo>, url: string, branch: string, modifications: string, decode: Decoder): (res: (map<string, Repo>, Outcome<Error>))
    ensures RepoPath(url) !in repos ==> res == (repos, Fail(NotFound))
    ensures RepoPath(url) in repos && decode(modifications).Err? ==>
      res == (repos, Fail(Error(ValueError, "Invalid JSON format in modifications: " + decode(modifications).error)))
    ensures res.0.Keys == repos.Keys
    ensures forall p :: p in repos && p != RepoPath(url) ==> res.0[p] == repos[p]
  {
    var path := RepoPath(url);
    if path !in repos then (repos, Fail(NotFound))
    else
      match decode(modifications)
      case Err(detail) => (repos, Fail(Error(ValueError, "Invalid JSON format in modifications: " + detail)))
      case Ok(v) =>
        match Iterated(v)
        case Err(e) => (repos, Fail(e))
        case Ok(items) =>
          var res := ApplyAll(repos[path], branch, items);
          (repos[path := res.0], res.1)
  }

  /** Given a lawful decoder, committing the serialisation of a list of writable
      entries to an existing branch succeeds, and the branch then holds its old
      table overlaid with the entries. */
  lemma CommitSerialisedList(repos: map<string, Repo>, url: string, branch: string, items: seq<Json>, decode: Decoder)
    requires Lawful(decode) && WellFormed(Array(items))
    requires RepoPath(url) in repos && RefName(branch) in repos[RepoPath(url)].refs
    requires forall i :: 0 <= i < |items| ==> Writable(items[i])
    ensures var res := CommitSpec(repos, url, branch, Dumps(Array(items)), decode);
      && res.1 == Pass
      && RefName(branch) in res.0[RepoPath(url)].refs
      && res.0[RepoPath(url)].refs[RefName(branch)].tree ==
         Overlay(repos[RepoPath(url)].refs[RefName(branch)].tree, items)
  {
    var r := repos[RepoPath(url)];
    assert decode(Dumps(Array(items))) == Ok(Array(items));
    ApplyAllPasses(r, branch, items);
    if items != [] {
      ApplyAllOverlay(r, branch, items);
    }
  }

  // ---------------------------------------------------------------------------
  // create_branch, create_pull_request, fork_repository

  const Main := RefName("main")

  /** `create_branch`: the new ref points at the commit at the head of `main`; a
      missing repository or `main`, or a ref that already exists, raises. */
  function CreateBranchSpec(repos: map<string, Repo>, url: string, branch: string): (res: (map<string, Repo>, Outcome<Error>))
    ensures res.1 == Pass <==>
      RepoPath(url) in repos && Main in repos[RepoPath(url)].refs && RefName(branch) !in repos[RepoPath(url)].refs
    ensures res.1.Fail? ==> res.0 == repos
    ensures res.0.Keys == repos.Keys
    ensures res.1 == Pass ==>
      var r := repos[RepoPath(url)];
      && RepoPath(url) in res.0
      && res.0 == repos[RepoPath(url) := r.(refs := res.0[RepoPath(url)].refs)]
      && res.0[RepoPath(url)].refs.Keys == r.refs.Keys + {RefName(branch)}
      && res.0[RepoPath(url)].refs[RefName(branch)] == r.refs[Main]
      && forall ref :: ref in r.refs ==> res.0[RepoPath(url)].refs[ref] == r.refs[ref]
  {
    var path := RepoPath(url);
    if path !in repos then (repos, Fail(NotFound))
    else
      var r := repos[path];
      if Main !in r.refs then (repos, Fail(Error(GithubException, "Branch not found")))
      else if RefName(branch) in r.refs then (repos, Fail(Error(GithubException, "Reference already exists")))
      else (repos[path := r.(refs := r.refs[RefName(branch) := r.refs[Main]])], Pass)
  }

  /** `create_pull_request`: a pull request from `branch` into `main`, titled from the
      description, its body the whole description; its web address is returned. */
  function PullSpec(repos: map<string, Repo>, url: string, branch: string, task: string): (res: (map<string, Repo>, Result<string, Error>))
    ensures res.1.Ok? <==>
      RepoPath(url) in repos && RefName(branch) in repos[RepoPath(url)].refs && Main in repos[RepoPath(url)].refs
    ensures res.1.Err? ==> res.0 == repos
    ensures res.0.Keys == repos.Keys
    ensures res.1.Ok? ==>
      var r := repos[RepoPath(url)];
      var pr := PullRequest(|r.pulls| + 1, PullTitle(task), task, branch, "main");
      && res.0 == repos[RepoPath(url) := r.(pulls := r.pulls + [pr])]
      && res.1.value == PullUrl(RepoPath(url), pr.number)
  {
    var path := RepoPath(url);
    if path !in repos then (repos, Err(NotFound))
    else
      var r := repos[path];
      if RefName(branch) !in r.refs || Main !in r.refs then
        (repos, Err(Error(GithubException, "Validation Failed")))
      else
        var pr := PullRequest(|r.pulls| + 1, PullTitle(task), task, branch, "main");
        (repos[path := r.(pulls := r.pulls + [pr])], Ok(PullUrl(path, pr.number)))
  }

  /** A fork of `source`: the same branches and commits, and no pull requests. */
  function Forked(source: Repo): (r: Repo)
    ensures r.refs == source.refs && r.log == source.log && r.pulls == []
  {
    Repo(source.refs, source.nextSha, source.log, [])
  }

  /** `fork_repository`: `get_repo` must find the repository; `create_fork()` then
      gives the fork's address (the `fork` parameter) and, when the fork does not
      exist yet, creates it as a copy of the repository. An existing fork is handed
      back as it is. */
  function ForkSpec(repos: map<string, Repo>, url: string, fork: string -> Result<string, Error>): (res: (map<string, Repo>, Result<string, Error>))
    ensures RepoPath(url) !in repos ==> res == (repos, Err(NotFound))
    ensures RepoPath(url) in repos ==> res.1 == fork(RepoPath(url))
    ensures res.1.Err? ==> res.0 == repos
    ensures res.1.Ok? ==>
      var forkPath := RepoPath(res.1.value);
      && RepoPath(url) in repos
      && res.0.Keys == repos.Keys + {forkPath}
      && (forall p :: p in repos ==> res.0[p] == repos[p])
      && (forkPath !in repos ==> res.0[forkPath] == Forked(repos[RepoPath(url)]))
  {
    var path := RepoPath(url);
    if path !in repos then (repos, Err(NotFound))
    else
      match fork(path)
      case Err(e) => (repos, Err(e))
      case Ok(u) =>
        if RepoPath(u) in repos then (repos, Ok(u))
        else (repos[RepoPath(u) := Forked(repos[path])], Ok(u))
  }

  // ---------------------------------------------------------------------------
  // The objects

  /** The GitHub server, as far as the backend changes it. */
  class Remote {
    var repos: map<string, Repo>

    constructor(repos: map<string, Repo>)
      ensures this.repos == repos
    {
      this.repos := repos;
    }

    /** `repo.get_contents(file_path, ref=branch)`, reduced to whether it succeeds. */
    method GetContents(path: string, branch: string, filePath: Json) returns (found: bool)
      requires path in repos
      ensures found == Found(repos[path], branch, filePath)
    {
      found := filePath.Str? && RefName(branch) in repos[path].refs
        && filePath.s in repos[path].refs[RefName(branch)].tree;
    }

    /** `repo.update_file(...)` */
    method Update(path: string, branch: string, filePath: Json, message: string, content: Json) returns (out: Outcome<Error>)
      requires path in repos
      modifies this
      ensures match UpdateFile(old(repos[path]), branch, filePath, message, content)
        case Ok(r) => repos == old(repos)[path := r] && out == Pass
        case Err(e) => repos == old(repos) && out == Fail(e)
    {
      match UpdateFile(repos[path], branch, filePath, message, content)
      case Ok(r) =>
        repos := repos[path := r];
        out := Pass;
      case Err(e) =>
        out := Fail(e);
    }

    /** `repo.create_file(...)` */
    method Create(path: string, branch: string, filePath: Json, message: string, content: Json) returns (out: Outcome<Error>)
      requires path in repos
      modifies this
      ensures match CreateFile(old(repos[path]), branch, filePath, message, content)
        case Ok(r) => repos == old(repos)[path := r] && out == Pass
        case Err(e) => repos == old(repos) && out == Fail(e)
    {
      match CreateFile(repos[path], branch, filePath, message, content)
      case Ok(r) =>
        repos := repos[path := r];
        out := Pass;
      case Err(e) =>
        out := Fail(e);
    }
  }

  /** `GitHubManager(github_token)`: a client for the remote, authenticated by the
      token (authentication is not modelled). */
  class GitHubManager {
    const token: string
    const remote: Remote

    constructor(token: string, remote: Remote)
      ensures this.token == token && this.remote == remote
    {
      this.token := token;
      this.remote := remote;
    }

    method ForkRepository(url: string, fork: string -> Result<string, Error>) returns (r: Result<string, Error>)
      modifies remote
      ensures (remote.repos, r) == ForkSpec(old(remote.repos), url, fork)
    {
      var path := RepoPath(url);
      if path !in remote.repos {
        return Err(NotFound);
      }
      r := fork(path);
      if r.Ok? && RepoPath(r.value) !in remote.repos {
        remote.repos := remote.repos[RepoPath(r.value) := Forked(remote.repos[path])];
      }
    }

    method CreateBranch(url: string, branch: string) returns (out: Outcome<Error>)
      modifies remote
      ensures (remote.repos, out) == CreateBranchSpec(old(remote.repos), url, branch)
    {
      var path := RepoPath(url);
      if path !in remote.repos {
        return Fail(NotFound);
      }
      var r := remote.repos[path];
      if Main !in r.refs {
        return Fail(Error(GithubException, "Branch not found"));
      }
      if RefName(branch) in r.refs {
        return Fail(Error(GithubException, "Reference already exists"));
      }
      remote.repos := remote.repos[path := r.(refs := r.refs[RefName(branch) := r.refs[Main]])];
      out := Pass;
    }

    /** `commit_changes`: the entries are written one at a time, in list order, each
        as its own commit on the branch. */
    method CommitChanges(url: string, branch: string, modifications: string, decode: Decoder) returns (out: Outcome<Error>)
      modifies remote
      ensures (remote.repos, out) == CommitSpec(old(remote.repos), url, branch, modifications, decode)
    {
      var path := RepoPath(url);
      if path !in remote.repos {
        return Fail(NotFound);
      }
      var mods;
      match decode(modifications)
      case Err(detail) =>
        return Fail(Error(ValueError, "Invalid JSON format in modifications: " + detail));
      case Ok(v) =>
        mods := v;
      var items;
      match Iterated(mods)
      case Err(e) =>
        return Fail(e);
      case Ok(xs) =>
        items := xs;
      out := WriteAll(path, branch, items);
    }

    /** The loop `for mod in mods` of `commit_changes`: each entry is written in turn,
        and the first failure leaves the loop with the earlier writes in place. */
    method WriteAll(path: string, branch: string, items: seq<Json>) returns (out: Outcome<Error>)
      requires path in remote.repos
      modifies remote
      ensures path in remote.repos
      ensures remote.repos == old(remote.repos)[path := remote.repos[path]]
      ensures (remote.repos[path], out) == ApplyAll(old(remote.repos[path]), branch, items)
    {
      ghost var start := remote.repos[path];
      var i := 0;
      while i < |items|
        invariant 0 <= i <= |items| && path in remote.repos
        invariant remote.repos == old(remote.repos)[path := remote.repos[path]]
        invariant ApplyAll(start, branch, items) == ApplyAll(remote.repos[path], branch, items[i..])
      {
        assert items[i..][0] == items[i] && items[i..][1..] == items[i + 1..];
        var written := WriteEntry(path, branch, items[i]);
        if written.Fail? {
          return written;
        }
        i := i + 1;
      }
      out := Pass;
    }

    /** One turn of the loop of `commit_changes`. */
    method WriteEntry(path: string, branch: string, mod: Json) returns (out: Outcome<Error>)
      requires path in remote.repos
      modifies remote
      ensures match ApplyEntry(old(remote.repos[path]), branch, mod)
        case Ok(r) => remote.repos == old(remote.repos)[path := r] && out == Pass
        case Err(e) => remote.repos == old(remote.repos) && out == Fail(e)
    {
      if !IsModification(mod) {
        return Fail(InvalidEntry(mod));
      }
      var filePath := Get(mod.fields, "file_path").value;
      var content := Get(mod.fields, "content").value;
      var found := remote.GetContents(path, branch, filePath);
      out := Fail(Error(ClientError, ""));
      if found {
        out := remote.Update(path, branch, filePath, "Update " + PyStr(filePath) + " for task", content);
      }
      if out.Fail? {
        out := remote.Create(path, branch, filePath, "Create " + PyStr(filePath) + " for task", content);
      }
    }

    method CreatePullRequest(url: string, branch: string, task: string) returns (r: Result<string, Error>)
      modifies remote
      ensures (remote.repos, r) == PullSpec(old(remote.repos), url, branch, task)
    {
      var path := RepoPath(url);
      if path !in remote.repos {
        return Err(NotFound);
      }
      var repo := remote.repos[path];
      if RefName(branch) !in repo.refs || Main !in repo.refs {
        return Err(Error(GithubException, "Validation Failed"));
      }
      var pr := PullRequest(|repo.pulls| + 1, PullTitle(task), task, branch, "main");
      remote.repos := remote.repos[path := repo.(pulls := repo.pulls + [pr])];
      r := Ok(PullUrl(path, pr.number));
    }
  }
}
