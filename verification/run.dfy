/** One run of the command: the fixed task graph
    checkArgs -> groups -> groupId -> {sendMessage, uploadFile -> sendFileMessage,
    sendConsoleMessage, waitForText}, written out as the requests it issues and
    the failures it reports. */
module Run {
  import opened Js
  import opened Config
  import Api
  import Args
  import opened Groups
  import opened Actions
  import opened Console
  import opened Rtm
  import Errors

  /** A call to the remote API. */
  datatype Call = List | Send(post: Post) | StartRtm

  /** The API method a call invokes. */
  function MethodName(c: Call): string {
    match c
    case List => "groups.list"
    case Send(PostMessage(_, _)) => "chat.postMessage"
    case Send(UploadFile(_, _)) => "files.upload"
    case StartRtm => "rtm.start"
  }

  /** A request, labelled with the task that issues it. */
  datatype Request = Request(task: Errors.Task, url: string, call: Call)

  /** Everything the remote side, the terminal and the timer hand back to a
      run, already decoded: the `groups` of the `groups.list` reply (or the
      transport error), the `file` of the `files.upload` reply (or the
      transport error), the transport result of the announcement post, the
      successive reads of standard input, the `url` of the `rtm.start` reply,
      the socket frames in arrival order, and the milliseconds `setTimeout`
      makes of the `--timeout` text. */
  datatype Replies = Replies(
    groups: Result<seq<Group>>,
    upload: Result<FileInfo>,
    announce: Result<()>,
    stdin: seq<Read>,
    rtmUrl: Value,
    frames: seq<Frame>,
    timerMs: nat)

  /** The requests a run issues, in dependency order, and the failures its
      tasks report. */
  datatype Run = Run(requests: seq<Request>, failures: seq<Errors.Failure>)

  function Issue(task: Errors.Task, call: Call, o: Options, env: Env): Request {
    Request(task, Api.Url(MethodName(call), o, env), call)
  }

  function IssuePost(task: Errors.Task, post: Option<Post>, o: Options, env: Env): seq<Request> {
    match post
    case None => []
    case Some(p) => [Issue(task, Send(p), o, env)]
  }

  /** What `uploadFile` hands to `sendFileMessage`: the reply, when the task
      ran and its request succeeded. */
  function Uploaded(o: Options, rep: Replies): Option<FileInfo> {
    if Truthy(o.file) && rep.upload.Ok? then Some(rep.upload.value) else None
  }

  /** The tasks that follow a successful `groupId`, with the resolved id. */
  function ActionStage(o: Options, env: Env, id: string, rep: Replies): Run {
    var wait := WaitForText(o, rep.rtmUrl, rep.frames, rep.timerMs);
    var requests :=
      IssuePost(Errors.SendMessage, SendMessageTask(o, id), o, env)
      + IssuePost(Errors.UploadFile, UploadFileTask(o, id), o, env)
      + IssuePost(Errors.SendFileMessage, SendFileMessageTask(o, id, Uploaded(o, rep)), o, env)
      + IssuePost(Errors.SendConsoleMessage, SendConsoleMessageTask(o, id, rep.stdin), o, env)
      + (if Truthy(o.waitForText) then [Issue(Errors.WaitForText, StartRtm, o, env)] else []);
    var failures :=
      (if Truthy(o.file) && rep.upload.Err? then [Errors.Failure(Errors.UploadFile, rep.upload.error)] else [])
      + (if Uploaded(o, rep).Some? && rep.announce.Err? then [Errors.Failure(Errors.SendFileMessage, rep.announce.error)] else [])
      + (if wait.Failed? then [Errors.Failure(Errors.WaitForText, wait.error)] else []);
    Run(requests, failures)
  }

  /** The run reaches the action tasks with `id` as the resolved group. */
  predicate Resolved(o: Options, env: Env, rep: Replies, id: string) {
    && Args.CheckArgs(o, env) == None
    && rep.groups.Ok?
    && GroupId(rep.groups.value, o.group) == Ok(id)
  }

  /** A whole run. A failing task stops everything that depends on it: nothing
      is requested before the arguments pass, and only the group listing is
      requested until the group resolves. */
  function Execute(o: Options, env: Env, rep: Replies): (r: Run)
    ensures r.requests == [] <==> Args.CheckArgs(o, env).Some?
    ensures Args.CheckArgs(o, env).Some? ==>
              r.failures == [Errors.Failure(Errors.CheckArgs, Args.CheckArgs(o, env).value)]
    ensures Args.CheckArgs(o, env) == None ==>
              r.requests[0] == Request(Errors.ListGroups, Api.Url("groups.list", o, env), List)
    ensures Args.CheckArgs(o, env) == None && rep.groups.Err? ==>
              r.requests == [r.requests[0]] && r.failures == [Errors.Failure(Errors.ListGroups, rep.groups.error)]
    ensures Args.CheckArgs(o, env) == None && rep.groups.Ok? && GroupId(rep.groups.value, o.group).Err? ==>
              r.requests == [r.requests[0]]
              && r.failures == [Errors.Failure(Errors.GroupId, GroupId(rep.groups.value, o.group).error)]
    ensures forall id :: Resolved(o, env, rep, id) ==> r.requests[1..] == ActionStage(o, env, id, rep).requests
  {
    match Args.CheckArgs(o, env)
    case Some(e) => Run([], [Errors.Failure(Errors.CheckArgs, e)])
    case None =>
      var list := Issue(Errors.ListGroups, List, o, env);
      match rep.groups
      case Err(e) => Run([list], [Errors.Failure(Errors.ListGroups, e)])
      case Ok(gs) =>
        match GroupId(gs, o.group)
        case Err(e) => Run([list], [Errors.Failure(Errors.GroupId, e)])
        case Ok(id) =>
          var actions := ActionStage(o, env, id, rep);
          Run([list] + actions.requests, actions.failures)
  }

  /** How many requests a task issues. */
  function Count(rs: seq<Request>, t: Errors.Task): nat {
    if |rs| == 0 then 0 else (if rs[0].task == t then 1 else 0) + Count(rs[1..], t)
  }

  lemma {:induction false} CountConcat(a: seq<Request>, b: seq<Request>, t: Errors.Task)
    ensures Count(a + b, t) == Count(a, t) + Count(b, t)
    decreases |a|
  {
    if |a| > 0 {
      assert (a + b)[1..] == a[1..] + b;
      CountConcat(a[1..], b, t);
    } else {
      assert a + b == b;
    }
  }

  function ActionRequests(o: Options, env: Env, id: string, rep: Replies): seq<Request> {
    ActionStage(o, env, id, rep).requests
  }

  lemma CountIssuePost(task: Errors.Task, post: Option<Post>, o: Options, env: Env, t: Errors.Task)
    ensures Count(IssuePost(task, post, o, env), t) == (if post.Some? && task == t then 1 else 0)
  {
  }

  /** Counting over the five parts of the action stage. */
  lemma CountActions(o: Options, env: Env, id: string, rep: Replies, t: Errors.Task)
    ensures Count(ActionRequests(o, env, id, rep), t)
            == (if SendMessageTask(o, id).Some? && t == Errors.SendMessage then 1 else 0)
             + (if UploadFileTask(o, id).Some? && t == Errors.UploadFile then 1 else 0)
             + (if SendFileMessageTask(o, id, Uploaded(o, rep)).Some? && t == Errors.SendFileMessage then 1 else 0)
             + (if SendConsoleMessageTask(o, id, rep.stdin).Some? && t == Errors.SendConsoleMessage then 1 else 0)
             + (if Truthy(o.waitForText) && t == Errors.WaitForText then 1 else 0)
  {
    var a := IssuePost(Errors.SendMessage, SendMessageTask(o, id), o, env);
    var b := IssuePost(Errors.UploadFile, UploadFileTask(o, id), o, env);
    var c := IssuePost(Errors.SendFileMessage, SendFileMessageTask(o, id, Uploaded(o, rep)), o, env);
    var d := IssuePost(Errors.SendConsoleMessage, SendConsoleMessageTask(o, id, rep.stdin), o, env);
    var e: seq<Request> := if Truthy(o.waitForText) then [Issue(Errors.WaitForText, StartRtm, o, env)] else [];
    assert ActionRequests(o, env, id, rep) == a + b + c + d + e;
    CountConcat(a, b, t);
    CountConcat(a + b, c, t);
    CountConcat(a + b + c, d, t);
    CountConcat(a + b + c + d, e, t);
    CountIssuePost(Errors.SendMessage, SendMessageTask(o, id), o, env, t);
    CountIssuePost(Errors.UploadFile, UploadFileTask(o, id), o, env, t);
    CountIssuePost(Errors.SendFileMessage, SendFileMessageTask(o, id, Uploaded(o, rep)), o, env, t);
    CountIssuePost(Errors.SendConsoleMessage, SendConsoleMessageTask(o, id, rep.stdin), o, env, t);
  }

  /** What an action request carries: the URL of its method, the resolved
      group, and the text or file its task builds. */
  predicate Carries(q: Request, o: Options, env: Env, id: string, rep: Replies) {
    && q.url == Api.Url(MethodName(q.call), o, env)
    && (q.task == Errors.SendMessage ==>
          Truthy(o.message) && !Truthy(o.file) && q.call == Send(PostMessage(id, o.message.s)))
    && (q.task == Errors.UploadFile ==> Truthy(o.file) && q.call == Send(UploadFile(id, o.file.s)))
    && (q.task == Errors.SendFileMessage ==>
          && Truthy(o.file) && rep.upload.Ok?
          && q.call == Send(PostMessage(id, Announcement(rep.upload.value, Label(o)))))
    && (q.task == Errors.SendConsoleMessage ==>
          q.call == Send(PostMessage(id, Join(Received(rep.stdin)))))
    && (q.task == Errors.WaitForText ==> q.call == StartRtm)
    && (q.call.Send? ==> q.call.post.channel == id)
  }

  lemma ActionContents(o: Options, env: Env, id: string, rep: Replies)
    ensures forall q :: q in ActionRequests(o, env, id, rep) ==> Carries(q, o, env, id, rep)
  {
    var a := IssuePost(Errors.SendMessage, SendMessageTask(o, id), o, env);
    var b := IssuePost(Errors.UploadFile, UploadFileTask(o, id), o, env);
    var c := IssuePost(Errors.SendFileMessage, SendFileMessageTask(o, id, Uploaded(o, rep)), o, env);
    var d := IssuePost(Errors.SendConsoleMessage, SendConsoleMessageTask(o, id, rep.stdin), o, env);
    var e: seq<Request> := if Truthy(o.waitForText) then [Issue(Errors.WaitForText, StartRtm, o, env)] else [];
    assert ActionRequests(o, env, id, rep) == a + b + c + d + e;
    assert forall q :: q in a ==> Carries(q, o, env, id, rep);
    assert forall q :: q in b ==> Carries(q, o, env, id, rep);
    assert forall q :: q in c ==> Carries(q, o, env, id, rep);
    assert forall q :: q in d ==> Carries(q, o, env, id, rep);
    assert forall q :: q in e ==> Carries(q, o, env, id, rep);
  }

  /** A run that reaches the actions lists the groups once, then issues the action requests. */
  lemma ResolvedRequests(o: Options, env: Env, rep: Replies, id: string)
    requires Resolved(o, env, rep, id)
    ensures Execute(o, env, rep).requests
            == [Issue(Errors.ListGroups, List, o, env)] + ActionRequests(o, env, id, rep)
  {
    var rs := Execute(o, env, rep).requests;
    assert rs == [rs[0]] + rs[1..];
  }

  /** Which tasks post in a run that resolves its group: the listing once;
      `sendMessage` exactly when there is a message and no file; `uploadFile`
      exactly when there is a file; `sendFileMessage` exactly when that upload
      succeeded; `sendConsoleMessage` exactly once in console mode; `rtm.start`
      exactly when a text is awaited. No task posts twice. */
  lemma TaskGating(o: Options, env: Env, rep: Replies, id: string)
    requires Resolved(o, env, rep, id)
    ensures var rs := Execute(o, env, rep).requests;
            && Count(rs, Errors.CheckArgs) == 0
            && Count(rs, Errors.ListGroups) == 1
            && Count(rs, Errors.GroupId) == 0
            && Count(rs, Errors.SendMessage) == (if Truthy(o.message) && !Truthy(o.file) then 1 else 0)
            && Count(rs, Errors.UploadFile) == (if Truthy(o.file) then 1 else 0)
            && Count(rs, Errors.SendFileMessage) == (if Truthy(o.file) && rep.upload.Ok? then 1 else 0)
            && Count(rs, Errors.SendConsoleMessage) == (if o.console then 1 else 0)
            && Count(rs, Errors.WaitForText) == (if Truthy(o.waitForText) then 1 else 0)
  {
    CountRun(o, env, rep, id, Errors.CheckArgs);
    CountRun(o, env, rep, id, Errors.ListGroups);
    CountRun(o, env, rep, id, Errors.GroupId);
    CountRun(o, env, rep, id, Errors.SendMessage);
    CountRun(o, env, rep, id, Errors.UploadFile);
    CountRun(o, env, rep, id, Errors.SendFileMessage);
    CountRun(o, env, rep, id, Errors.SendConsoleMessage);
    CountRun(o, env, rep, id, Errors.WaitForText);
  }

  lemma CountRun(o: Options, env: Env, rep: Replies, id: string, t: Errors.Task)
    requires Resolved(o, env, rep, id)
    ensures Count(Execute(o, env, rep).requests, t)
            == (if t == Errors.ListGroups then 1 else 0)
             + (if SendMessageTask(o, id).Some? && t == Errors.SendMessage then 1 else 0)
             + (if UploadFileTask(o, id).Some? && t == Errors.UploadFile then 1 else 0)
             + (if SendFileMessageTask(o, id, Uploaded(o, rep)).Some? && t == Errors.SendFileMessage then 1 else 0)
             + (if SendConsoleMessageTask(o, id, rep.stdin).Some? && t == Errors.SendConsoleMessage then 1 else 0)
             + (if Truthy(o.waitForText) && t == Errors.WaitForText then 1 else 0)
  {
    ResolvedRequests(o, env, rep, id);
    CountConcat([Issue(Errors.ListGroups, List, o, env)], ActionRequests(o, env, id, rep), t);
    CountActions(o, env, id, rep, t);
  }

  /** Message and file together: the bare message is never posted; the one
      post about them is the announcement, titled by the message. A file alone
      is announced under its own name. */
  lemma FileTakesPrecedence(o: Options, env: Env, rep: Replies, id: string)
    requires Resolved(o, env, rep, id)
    ensures var rs := Execute(o, env, rep).requests;
            Truthy(o.message) && Truthy(o.file) ==>
              && Count(rs, Errors.SendMessage) == 0
              && forall q :: q in rs && q.task == Errors.SendFileMessage ==>
                   q.call == Send(PostMessage(id, Announcement(rep.upload.value, o.message.s)))
    ensures var rs := Execute(o, env, rep).requests;
            !Truthy(o.message) && Truthy(o.file) ==>
              forall q :: q in rs && q.task == Errors.SendFileMessage ==>
                q.call == Send(PostMessage(id, Announcement(rep.upload.value, o.file.s)))
  {
    TaskGating(o, env, rep, id);
    ResolvedRequests(o, env, rep, id);
    ActionContents(o, env, id, rep);
  }

  /** Console mode posts exactly one message, carrying the in-order
      concatenation of every chunk read; without it nothing is read or posted. */
  lemma ConsolePostedOnce(o: Options, env: Env, rep: Replies, id: string)
    requires Resolved(o, env, rep, id)
    ensures var rs := Execute(o, env, rep).requests;
            && Count(rs, Errors.SendConsoleMessage) == (if o.console then 1 else 0)
            && forall q :: q in rs && q.task == Errors.SendConsoleMessage ==>
                 q.call == Send(PostMessage(id, Join(Received(rep.stdin))))
  {
    TaskGating(o, env, rep, id);
    ResolvedRequests(o, env, rep, id);
    ActionContents(o, env, id, rep);
  }

  /** Every post of a run goes to the resolved group. */
  lemma PostsTargetResolvedGroup(o: Options, env: Env, rep: Replies, id: string)
    requires Resolved(o, env, rep, id)
    ensures forall q :: q in Execute(o, env, rep).requests && q.call.Send? ==> q.call.post.channel == id
  {
    ResolvedRequests(o, env, rep, id);
    ActionContents(o, env, id, rep);
  }

  lemma MethodNameHasNoQuery(c: Call)
    ensures '?' !in MethodName(c)
  {
  }

  /** Every request of a run names its method and carries a non-empty token:
      the one `checkArgs` found. */
  lemma RequestsCarryToken(o: Options, env: Env, rep: Replies)
    ensures forall q :: q in Execute(o, env, rep).requests ==>
              && Truthy(Api.Token(o, env))
              && Api.ParseUrl(q.url) == Some((MethodName(q.call), Api.Token(o, env).s))
  {
    forall q | q in Execute(o, env, rep).requests
      ensures Api.ParseUrl(q.url) == Some((MethodName(q.call), Api.Token(o, env).s))
    {
      if Args.CheckArgs(o, env) == None && rep.groups.Ok? && GroupId(rep.groups.value, o.group).Ok? {
        var id := GroupId(rep.groups.value, o.group).value;
        ResolvedRequests(o, env, rep, id);
        ActionContents(o, env, id, rep);
      }
      MethodNameHasNoQuery(q.call);
      Api.UrlRoundTrip(MethodName(q.call), o, env);
    }
  }

  /** Once the group resolves, the run fails exactly when a requested upload
      fails, the announcement of an uploaded file fails, or the wait fails (a
      missing session URL, or the timer), and through no other task. */
  lemma ResolvedRunFailures(o: Options, env: Env, rep: Replies, id: string)
    requires Resolved(o, env, rep, id)
    ensures var r := Execute(o, env, rep);
            && (r.failures == [] <==>
                  && (Truthy(o.file) ==> rep.upload.Ok? && rep.announce.Ok?)
                  && !WaitForText(o, rep.rtmUrl, rep.frames, rep.timerMs).Failed?)
            && forall f :: f in r.failures ==>
                 f.task == Errors.UploadFile || f.task == Errors.SendFileMessage || f.task == Errors.WaitForText
  {
  }

  /** What the final callback logs for a failure: the error and its explanation. */
  datatype Report = Report(err: string, message: Value)

  /** The final callback as the command writes it. `async.auto` hands it the
      first error only; it logs that one report, explanation looked up by the
      error text alone, and exits. `first` is the position in `r.failures` of
      the failure that happened first (timing decides between concurrent
      tasks); a run without failures logs nothing. */
  function FinalReport(r: Run, first: nat): Option<Report>
    requires r.failures == [] || first < |r.failures|
  {
    if r.failures == [] then None
    else Some(Report(r.failures[first].error, Errors.Explain(r.failures[first].error)))
  }

  /** A run logs at most one report, exactly when it fails, about the failure
      that came first; it carries an explanation exactly when that error's text
      is one of the two keys of the table, whichever task reported it. A
      failed argument check is always the one reported. */
  lemma ReportExplainsByText(o: Options, env: Env, rep: Replies, first: nat)
    requires Execute(o, env, rep).failures == [] || first < |Execute(o, env, rep).failures|
    ensures var r := Execute(o, env, rep);
            var report := FinalReport(r, first);
            && (report.None? <==> r.failures == [])
            && (report.Some? ==>
                  && report.value.err == r.failures[first].error
                  && (report.value.message.Str? <==>
                        report.value.err == Args.TokenMissing || report.value.err == Args.NothingToDo))
            && (Args.CheckArgs(o, env).Some? ==> report.Some? && report.value.err == Args.CheckArgs(o, env).value)
  {
  }

  /** The by-text lookup at work on a whole run: with any listing in which a
      group called "SLACK_TOKEN" does not resolve, the run reports
      "SLACK_TOKEN not found" with the missing-token explanation. */
  lemma SlackTokenGroupReportedAsMissingToken(o: Options, env: Env, rep: Replies)
    requires Args.CheckArgs(o, env) == None
    requires o.group == Str("SLACK_TOKEN")
    requires rep.groups.Ok? && GroupId(rep.groups.value, o.group).Err?
    ensures FinalReport(Execute(o, env, rep), 0)
            == Some(Report(Args.TokenMissing, Str(Errors.Messages[Args.TokenMissing])))
  {
    Errors.GroupNamedSlackTokenMisexplained(rep.groups.value);
  }

  /** The final callback with the lookup keyed by the failing task as well. */
  function CorrectedFinalReport(r: Run, first: nat): Option<Report>
    requires r.failures == [] || first < |r.failures|
  {
    if r.failures == [] then None
    else Some(Report(r.failures[first].error, Errors.ExplainFailure(r.failures[first])))
  }

  /** With the corrected lookup, the one report of a failed run carries an
      explanation exactly when the argument checks failed for want of a token
      or of anything to do; a failure of any later task, whatever its text,
      is reported without one. */
  lemma CorrectedReportExplainsOnlyArgumentErrors(o: Options, env: Env, rep: Replies, first: nat)
    requires Execute(o, env, rep).failures == [] || first < |Execute(o, env, rep).failures|
    ensures var report := CorrectedFinalReport(Execute(o, env, rep), first);
            && (report.None? <==> Execute(o, env, rep).failures == [])
            && (report.Some? ==>
                  (report.value.message.Str? <==>
                     Args.CheckArgs(o, env) == Some(Args.TokenMissing)
                     || Args.CheckArgs(o, env) == Some(Args.NothingToDo)))
  {
    if Args.CheckArgs(o, env) == None && rep.groups.Ok? && GroupId(rep.groups.value, o.group).Ok? {
      ResolvedRunFailures(o, env, rep, GroupId(rep.groups.value, o.group).value);
    }
  }
}
