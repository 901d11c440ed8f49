/** backend/app.py: the Flask endpoints around the job. `submit` validates a request
    and enqueues one job, `task_status` reports a job's state, `/api/enhance` turns a
    Gemini reply into an enhanced prompt, and `logout` clears the session.

    A request body is the value `request.get_json()` returned (for `/api/enhance`,
    the value or the exception it raised); Gemini's reply, the
    job id Celery assigns and the state Celery reports are parameters. A response is
    a status code with its JSON body, or an exception Flask turns into its own
    `500 Internal Server Error` page. */
module App {
  import opened Base
  import opened PyText
  import opened Json
  import Tasks

  datatype Response = Reply(status: int, body: Json) | Unhandled(error: Error)

  /** A one-entry JSON object. */
  function Entry(key: string, value: Json): Json {
    Object([Field(key, value)])
  }

  // ---------------------------------------------------------------------------
  // submit

  /** The arguments `run_dev_agent_task.delay(...)` is given. */
  datatype Job = Job(repoUrl: Json, taskDescription: Json, githubToken: string, githubUser: string)

  const SubmittedMessage := "Task submitted successfully!"
  const SubmittedStatus := "The agent is now working on it and will create a PR upon completion."

  /** `submit`, given the session, the request body and the id Celery gives the job:
      the response, and the job enqueued, if any. */
  function Submit(session: map<string, string>, body: Json, jobId: string): (r: (Response, Option<Job>))
    ensures "user" !in session ==>
      r == (Reply(401, Entry("error", Str("Authentication required. Please log in."))), None)
    ensures "user" in session && !Truthy(body) ==>
      r == (Reply(400, Entry("error", Str("Invalid JSON payload"))), None)
    ensures "user" in session && Truthy(body) && !body.Object? ==>
      r == (Unhandled(Error(AttributeError, "'" + TypeName(body) + "' object has no attribute 'get'")), None)
    ensures ("user" in session && body.Object? && Truthy(body) &&
      !(Truthy(GetOrNull(body.fields, "repo_url")) && Truthy(GetOrNull(body.fields, "task_description")))) ==>
      r == (Reply(400, Entry("error", Str("Repository URL and task description are required."))), None)
    ensures r.1.Some? <==>
      && "user" in session && "github_token" in session && body.Object? && Truthy(body)
      && Truthy(GetOrNull(body.fields, "repo_url")) && Truthy(GetOrNull(body.fields, "task_description"))
    ensures r.1.Some? ==>
      && r.1.value == Job(GetOrNull(body.fields, "repo_url"), GetOrNull(body.fields, "task_description"),
           session["github_token"], session["user"])
      && r.0 == Reply(200, Object([Field("message", Str(SubmittedMessage)), Field("job_id", Str(jobId)),
           Field("status", Str(SubmittedStatus))]))
  {
    if "user" !in session then
      (Reply(401, Entry("error", Str("Authentication required. Please log in."))), None)
    else if !Truthy(body) then
      (Reply(400, Entry("error", Str("Invalid JSON payload"))), None)
    else if !body.Object? then
      (Unhandled(Error(AttributeError, "'" + TypeName(body) + "' object has no attribute 'get'")), None)
    else
      var repoUrl := GetOrNull(body.fields, "repo_url");
      var task := GetOrNull(body.fields, "task_description");
      if !Truthy(repoUrl) || !Truthy(task) then
        (Reply(400, Entry("error", Str("Repository URL and task description are required."))), None)
      else if "github_token" !in session then
        (Unhandled(Error(KeyError, "'github_token'")), None)
      else
        var reply := Object([Field("message", Str(SubmittedMessage)), Field("job_id", Str(jobId)),
          Field("status", Str(SubmittedStatus))]);
        (Reply(200, reply), Some(Job(repoUrl, task, session["github_token"], session["user"])))
  }

  /** Without a logged-in user nothing is enqueued, whatever the body says. */
  lemma SubmitNeedsUser(session: map<string, string>, body1: Json, body2: Json, id1: string, id2: string)
    requires "user" !in session
    ensures Submit(session, body1, id1) == Submit(session, body2, id2)
    ensures Submit(session, body1, id1).0.Reply? && Submit(session, body1, id1).0.status == 401
  {
  }

  /** The reply to an accepted submission carries the job's id. */
  lemma SubmitReportsJobId(session: map<string, string>, body: Json, jobId: string)
    requires Submit(session, body, jobId).1.Some?
    ensures var resp := Submit(session, body, jobId).0;
      resp.Reply? && resp.body.Object? && Get(resp.body.fields, "job_id") == Some(Str(jobId))
  {
    var fields := Submit(session, body, jobId).0.body.fields;
    assert fields[0].key != "job_id" by { assert fields[0].key[0] == 'm'; }
    assert fields[1..][0].key == "job_id";
  }

  // ---------------------------------------------------------------------------
  // task_status

  /** What Celery stores as a task's result: a value `jsonify` can write, or an object
      it cannot (an exception, say), given by its class name. */
  datatype Stored = Value(v: Json) | Opaque(typeName: string)

  /** `AsyncResult(job_id)`: its state and its result. */
  datatype TaskInfo = TaskInfo(state: string, result: Stored)

  /** `task_status`, given what the result backend reports, or the exception that
      reading it raised. */
  function TaskStatus(lookup: Result<TaskInfo, Error>): (r: Response)
    ensures r.Reply?
    ensures lookup.Err? ==>
      r == Reply(500, Object([Field("status", Str("ERROR")), Field("message", Str(lookup.error.message))]))
    ensures lookup.Ok? && lookup.value.state == "PENDING" ==>
      r == Reply(200, Object([Field("status", Str("PENDING")), Field("message", Str("Task is still processing"))]))
    ensures lookup.Ok? && lookup.value.state in {"SUCCESS", "FAILURE"} && lookup.value.result.Value? ==>
      r == Reply(200, Object([Field("status", Str(lookup.value.state)), Field("result", lookup.value.result.v)]))
    ensures lookup.Ok? && lookup.value.state in {"SUCCESS", "FAILURE"} && lookup.value.result.Opaque? ==>
      r.status == 500
    ensures lookup.Ok? && lookup.value.state !in {"PENDING", "SUCCESS", "FAILURE"} ==>
      r == Reply(200, Object([Field("status", Str(lookup.value.state)), Field("message", Str("Task in unknown state"))]))
  {
    match lookup
    case Err(e) => Reply(500, Object([Field("status", Str("ERROR")), Field("message", Str(e.message))]))
    case Ok(TaskInfo(state, result)) =>
      if state == "PENDING" then
        Reply(200, Object([Field("status", Str("PENDING")), Field("message", Str("Task is still processing"))]))
      else if state == "SUCCESS" || state == "FAILURE" then
        match result
        case Value(v) => Reply(200, Object([Field("status", Str(state)), Field("result", v)]))
        case Opaque(t) =>
          // jsonify raises inside the try block
          Reply(500, Object([Field("status", Str("ERROR")),
            Field("message", Str("Object of type " + t + " is not JSON serializable"))]))
      else
        Reply(200, Object([Field("status", Str(state)), Field("message", Str("Task in unknown state"))]))
  }

  /** A finished job is reported with the record the job returned: the pull request's
      address on success, the exception's message on failure. */
  lemma StatusReportsJobRecord(record: Tasks.TaskResult)
    ensures var r := TaskStatus(Ok(TaskInfo("SUCCESS", Value(Tasks.ResultJson(record)))));
      && r.Reply? && r.status == 200 && r.body.Object?
      && Get(r.body.fields, "status") == Some(Str("SUCCESS"))
      && Get(r.body.fields, "result") == Some(Tasks.ResultJson(record))
  {
    var fields := TaskStatus(Ok(TaskInfo("SUCCESS", Value(Tasks.ResultJson(record))))).body.fields;
    assert fields[0].key != "result" by { assert fields[0].key[0] == 's'; }
    assert fields[1..][0].key == "result";
  }

  // ---------------------------------------------------------------------------
  // /api/enhance

  /** `text[7:-3].strip()` after `text.startswith("```json")`: the first seven and the
      last three characters go, whatever they are, and an overlap leaves nothing. */
  function StripFence(text: string): (r: string)
    ensures |text| > 10 ==> r == Strip(text[7..|text| - 3])
    ensures |text| <= 10 ==> r == ""
  {
    var n := |text|;
    Strip(if n - 3 > 7 then text[7..n - 3] else "")
  }

  /** The text of the reply after the fence handling. */
  function ReplyText(raw: string): (t: string)
    ensures !("```json" <= Strip(raw)) ==> t == Strip(raw)
    ensures "```json" <= Strip(raw) ==> t == StripFence(Strip(raw))
  {
    var text := Strip(raw);
    if "```json" <= text then StripFence(text) else text
  }

  /** A fenced block loses exactly its fence, and the text inside is stripped. */
  lemma FenceRemoved(m: string)
    ensures StripFence("```json" + m + "```") == Strip(m)
  {
    var t := "```json" + m + "```";
    if m == [] {
      assert |t| == 10;
    } else {
      assert t[7..|t| - 3] == m;
    }
  }

  const OuterMessage := "An error occurred during prompt enhancement."

  /** The outer handler: any exception not caught inside becomes a 500. */
  function OuterError(message: string): Response {
    Reply(500, Object([Field("success", Bool(false)), Field("message", Str(OuterMessage)), Field("error", Str(message))]))
  }

  /** The inner handler, for a decoding error or the missing key. */
  function ParseError(message: string): Response {
    Reply(500, Object([Field("success", Bool(false)),
      Field("message", Str("Invalid response format from AI model")), Field("error", Str(message))]))
  }

  /** `str(KeyError("Response must contain 'enhanced_prompt' key"))`, which is the repr
      of its argument. */
  const MissingKey := "\"Response must contain 'enhanced_prompt' key\""

  /** `if "enhanced_prompt" not in data: raise KeyError(...)` then
      `data["enhanced_prompt"]`, for each kind of decoded value. */
  function CheckReply(data: Json): (r: Response)
    ensures data.Object? && HasKey(data.fields, "enhanced_prompt") ==>
      r == Reply(200, Object([Field("success", Bool(true)), Field("enhanced_prompt", GetOrNull(data.fields, "enhanced_prompt"))]))
    ensures data.Object? && !HasKey(data.fields, "enhanced_prompt") ==> r == ParseError(MissingKey)
    ensures r.Reply? && r.status == 200 ==> data.Object? && HasKey(data.fields, "enhanced_prompt")
    ensures !data.Object? ==>
      && r.Reply? && r.status == 500 && r.body.Object? && |r.body.fields| == 3
      && r.body.fields[0] == Field("success", Bool(false))
    ensures data.Array? && !(exists i :: 0 <= i < |data.items| && data.items[i] == Str("enhanced_prompt")) ==>
      r == ParseError(MissingKey)
    ensures data.Str? && !Occurs("enhanced_prompt", data.s) ==> r == ParseError(MissingKey)
    ensures !data.Object? && r != ParseError(MissingKey) ==>
      r.body.fields[1] == Field("message", Str(OuterMessage)) && r.body.fields[2].value.Str?
  {
    match data
    case Object(fields) =>
      if HasKey(fields, "enhanced_prompt") then
        Reply(200, Object([Field("success", Bool(true)), Field("enhanced_prompt", GetOrNull(fields, "enhanced_prompt"))]))
      else ParseError(MissingKey)
    case Array(items) =>
      // `in` is membership; indexing a list by a string raises TypeError
      if exists i :: 0 <= i < |items| && items[i] == Str("enhanced_prompt") then
        OuterError("list indices must be integers or slices, not str")
      else ParseError(MissingKey)
    case Str(s) =>
      // `in` is the substring test; indexing a string by a string raises TypeError
      if Occurs("enhanced_prompt", s) then OuterError("string indices must be integers, not 'str'")
      else ParseError(MissingKey)
    case _ => OuterError("argument of type '" + TypeName(data) + "' is not iterable")
  }

  /** `enhance_prompt`, given what `request.get_json()` returned or raised, Gemini's
      reply (or the client's exception) and `json.loads`. The body is read inside the
      outer `try`, so a body Flask cannot parse is answered by the outer handler. */
  function Enhance(request: Result<Json, Error>, reply: Result<string, Error>, decode: Decoder): (r: Response)
    ensures request.Err? ==> r == OuterError(request.error.message)
    ensures request.Ok? && !request.value.Object? ==>
      r == OuterError("'" + TypeName(request.value) + "' object has no attribute 'get'")
    ensures request.Ok? && request.value.Object? && !Truthy(GetOrNull(request.value.fields, "prompt")) ==>
      r == Reply(400, Entry("error", Str("Prompt is missing from the request.")))
    ensures request.Ok? && request.value.Object? && Truthy(GetOrNull(request.value.fields, "prompt")) && reply.Err? ==>
      r == OuterError(reply.error.message)
    ensures request.Ok? && request.value.Object? && Truthy(GetOrNull(request.value.fields, "prompt")) && reply.Ok? ==>
      var text := ReplyText(reply.value);
      && (decode(text).Err? ==> r == ParseError(decode(text).error))
      && (decode(text).Ok? ==> r == CheckReply(decode(text).value))
  {
    match request
    case Err(e) => OuterError(e.message)
    case Ok(body) =>
      if !body.Object? then OuterError("'" + TypeName(body) + "' object has no attribute 'get'")
      else if !Truthy(GetOrNull(body.fields, "prompt")) then
        Reply(400, Entry("error", Str("Prompt is missing from the request.")))
      else
        match reply
        case Err(e) => OuterError(e.message)
        case Ok(raw) =>
          var text := ReplyText(raw);
          match decode(text)
          case Err(detail) => ParseError(detail)
          case Ok(data) => CheckReply(data)
  }

  /** A missing or empty prompt is answered with 400 before Gemini's reply is looked
      at: the response does not depend on the reply or on the decoder. */
  lemma MissingPromptFirst(body: Json, reply1: Result<string, Error>, reply2: Result<string, Error>, d1: Decoder, d2: Decoder)
    requires body.Object? && !Truthy(GetOrNull(body.fields, "prompt"))
    ensures Enhance(Ok(body), reply1, d1) == Enhance(Ok(body), reply2, d2)
    ensures Enhance(Ok(body), reply1, d1).Reply? && Enhance(Ok(body), reply1, d1).status == 400
  {
  }

  /** Given a lawful decoder, a reply that is a JSON object with the key, written
      bare or inside a ```` ```json ```` fence, is answered with 200 and the key's value
      unchanged. */
  lemma EnhanceAcceptsObject(body: Json, v: Json, fenced: bool, decode: Decoder)
    requires Lawful(decode) && WellFormed(v)
    requires body.Object? && Truthy(GetOrNull(body.fields, "prompt"))
    requires v.Object? && HasKey(v.fields, "enhanced_prompt")
    ensures var raw := if fenced then "```json" + Dumps(v) + "```" else Dumps(v);
      Enhance(Ok(body), Ok(raw), decode) ==
        Reply(200, Object([Field("success", Bool(true)), Field("enhanced_prompt", GetOrNull(v.fields, "enhanced_prompt"))]))
  {
    ObjectReplyText(v, fenced);
    assert decode(Dumps(v)) == Ok(v);
  }

  /** The fence handling hands a serialised object to `json.loads` as it was
      written, with or without a fence around it. */
  lemma ObjectReplyText(v: Json, fenced: bool)
    requires v.Object?
    ensures ReplyText(if fenced then "```json" + Dumps(v) + "```" else Dumps(v)) == Dumps(v)
  {
    var d := Dumps(v);
    assert d == "{" + DumpsFields(v.fields) + "}";
    assert Strip(d) == d by {
      StripSurrounded([], d, []);
      assert [] + d + [] == d;
    }
    assert !("```json" <= d) by {
      assert d[0] == '{';
    }
    if fenced {
      FencedText(d);
    }
  }

  lemma FencedText(d: string)
    requires d != [] && !IsSpace(d[0]) && !IsSpace(d[|d| - 1]) && Strip(d) == d
    ensures ReplyText("```json" + d + "```") == d
  {
    var raw := "```json" + d + "```";
    assert Strip(raw) == raw by {
      assert raw[0] == '`' && raw[|raw| - 1] == '`';
      StripSurrounded([], raw, []);
      assert [] + raw + [] == raw;
    }
    assert "```json" <= raw;
    FenceRemoved(d);
  }

  // ---------------------------------------------------------------------------
  // logout

  /** The session without the login: `user` and `github_token` removed, all else
      kept. */
  function LoggedOut(entries: map<string, string>): (r: map<string, string>)
    ensures "user" !in r && "github_token" !in r
    ensures forall k :: k != "user" && k != "github_token" ==>
      (k in r <==> k in entries) && (k in r ==> r[k] == entries[k])
  {
    entries - {"user", "github_token"}
  }

  /** Logging out twice is logging out once. */
  lemma LogoutIdempotent(entries: map<string, string>)
    ensures LoggedOut(LoggedOut(entries)) == LoggedOut(entries)
  {
  }

  /** After logging out, `submit` refuses with 401 and enqueues nothing. */
  lemma SubmitAfterLogout(entries: map<string, string>, body: Json, jobId: string)
    ensures Submit(LoggedOut(entries), body, jobId).1 == None
    ensures Submit(LoggedOut(entries), body, jobId).0 == Reply(401, Entry("error", Str("Authentication required. Please log in.")))
  {
  }

  /** The Flask session of one browser. */
  class Session {
    var entries: map<string, string>

    constructor(entries: map<string, string>)
      ensures this.entries == entries
    {
      this.entries := entries;
    }

    /** `logout`: `session.pop("user", None)` and `session.pop("github_token", None)`;
        popping a key that is absent does nothing. */
    method Logout()
      modifies this
      ensures entries == LoggedOut(old(entries))
    {
      if "user" in entries {
        entries := entries - {"user"};
      }
      if "github_token" in entries {
        entries := entries - {"github_token"};
      }
    }
  }
}
