# slack-cli: a Dafny model of the command's decision logic

`slack-cli` is a command-line client for Slack. One run checks its options,
lists the private groups of the account, resolves the `--group` name to a group
id, and then, depending on the options, posts a message, uploads a file and
announces it, posts everything read from standard input, or waits on the
real-time socket for a message with a given text. The command is one script,
`bin/cmd.js`, that chains these steps as named tasks of an `async.auto` graph:

    checkArgs -> groups -> groupId -> sendMessage
                                   -> uploadFile -> sendFileMessage
                                   -> sendConsoleMessage
                                   -> waitForText

This project models the decisions those tasks make as total functions over
the parsed options, the environment and the already-decoded API replies, and
proves what they promise.

- `js.dfy` (`Js`): JavaScript values as the script sees them (`undefined` or a
  string), truthiness (the empty string is falsy), `||`, `&&`, string
  conversion of `undefined`, and first/last character search.
- `config.dfy` (`Config`): the options, the `SLACK_TOKEN` environment
  variable, the 30000 ms default timeout.
- `api.dfy` (`Api`): the request URL and a parser proving the URL carries the
  method and the right token.
- `args.dfy` (`Args`): `checkArgs`.
- `groups.dfy` (`Groups`): the `forEach` scan of `groupId` and the resulting
  id or `<group> not found` error.
- `actions.dfy` (`Actions`): `sendMessage`, `uploadFile`, `sendFileMessage`
  and the announcement text, with a parser for the announcement.
- `console.dfy` (`Console`): the collected standard input and
  `sendConsoleMessage`.
- `rtm.dfy` (`Rtm`): the frame filter, the effective timeout and the outcome
  of `waitForText`.
- `errors.dfy` (`Errors`): the task names, the explanation table of the final
  callback.
- `run.dfy` (`Run`): a whole run, as the list of requests it issues (each
  labelled with its task) and the failures its tasks report.

Group resolution follows the code: every matching entry overwrites the id, so
the LAST entry with the name wins (not the first), and a falsy id on that entry
fails the resolution even when an earlier entry matched with a real id. Other
versions of the tool add channels, pinning, a line-by-line console relay and a
continuous-read mode; none of these exists in this version of `bin/cmd.js` and
none is modelled.

## Model

| member | source | states |
|---|---|---|
| `Args.CheckArgs` | bin/cmd.js:88-106 | the checks pass exactly when a token (option or environment), a group and at least one of message, file, console or waitForText are present; a missing token is reported before a missing group, which is reported before "nothing to do" |
| `Api.UrlRoundTrip` | bin/cmd.js:74-79 | the request URL is the base address followed by the method and the token query; parsing it back gives the method and the token |
| `Api.TokenPrecedence` | bin/cmd.js:75 | a non-empty `--token` is the token sent; otherwise the environment value is sent, and a missing one is sent as the text "undefined" |
| `Groups.ScanFindsLastMatch` | bin/cmd.js:122-129 | the `forEach` scan leaves `id` unset when no name matches and otherwise holds the id of the last entry whose name is exactly the group |
| `Groups.GroupId` | bin/cmd.js:119-139 | resolution succeeds exactly when the last exactly-matching entry has a non-empty id, and then yields that id; any failure is the error `<group> not found` |
| `Actions.SendMessageTask` | bin/cmd.js:140-151 | the bare message is posted exactly when there is a message and no file, to the resolved group, with the message as text |
| `Actions.UploadFileTask` | bin/cmd.js:157-171 | the upload happens exactly when a file is given, to the resolved group, under the file path as file name |
| `Actions.AnnouncementRoundTrip` | bin/cmd.js:193 | the announcement links the private permalink under the title and then the public permalink; all three can be read back from it |
| `Actions.SendFileMessageTask` | bin/cmd.js:183-194 | the announcement is posted exactly when the upload replied; its title is the message when there is one and the file name otherwise |
| `Console.CollectJoinsChunks` | bin/cmd.js:211-220 | appending each non-null chunk as it is read yields the in-order concatenation of all non-null chunks |
| `Console.ConsoleText` | bin/cmd.js:211-226 | the text posted at end of input is the in-order concatenation of the non-null chunks |
| `Console.SendConsoleMessageTask` | bin/cmd.js:204-233 | console mode posts one message, with the collected text, to the resolved group; without `--console` nothing is posted |
| `Rtm.DefaultTimeoutBoundary` | bin/cmd.js:253-256 | without `--timeout` the timer fires after 30000 ms: a matching frame at 29999 ms resolves the wait, one at 30000 ms comes too late |
| `Rtm.TimeoutOptionSetsDeadline` | bin/cmd.js:253-256 | with `--timeout`, the number `setTimeout` makes of its text, used as milliseconds, alone sets the deadline a matching frame must beat |
| `Rtm.TimeoutTextMattersOnlyThroughNumber` | bin/cmd.js:256 | for every frame sequence, two non-empty `--timeout` texts with the same number give the same outcome of the wait |
| `Rtm.DefaultIgnoresCoercedNumber` | bin/cmd.js:256 | without `--timeout`, the outcome of the wait does not depend on any coerced number: the default alone decides |
| `Rtm.FirstMatch` | bin/cmd.js:258-271 | finds the first frame that is a text frame of type 'message' with exactly the awaited text and arrives before the timer; no earlier frame does both |
| `Rtm.WaitForText` | bin/cmd.js:234-273 | without `--waitForText` the task never calls back; without a session URL it fails with "wss not found"; it resolves with the first matching event exactly when one arrives before the effective timeout, and otherwise fails with "timeout" |
| `Errors.Explain` | bin/cmd.js:14-17 | the final callback finds an explanation exactly for "SLACK_TOKEN not found" and "nothing to do", looked up by error text alone |
| `Errors.GroupNamedSlackTokenMisexplained` | bin/cmd.js:131-133 | for any listing in which the group "SLACK_TOKEN" does not resolve, the resolution error has the text of a missing token and receives the missing-token explanation |
| `Errors.ExplainFailure` | bin/cmd.js:276-283 | an explanation is given exactly for the token and nothing-to-do errors of the argument checks, never for an error of another task |
| `Run.Execute` | bin/cmd.js:87-139 | nothing is requested when the arguments fail; the group listing is the first request; only the listing is requested when listing or resolution fails; after resolution the action requests follow |
| `Run.TaskGating` | bin/cmd.js:140-241 | in a run that resolves its group, the listing is requested once and each action task posts at most once, exactly when its option asks for it (the announcement when the upload succeeded) |
| `Run.FileTakesPrecedence` | bin/cmd.js:143-193 | with both message and file, the bare message is never posted and the announcement is titled by the message; a file alone is announced under its name |
| `Run.ConsolePostedOnce` | bin/cmd.js:204-233 | console mode posts exactly one message, the concatenation of all chunks read; otherwise none |
| `Run.PostsTargetResolvedGroup` | bin/cmd.js:147-226 | every post and upload goes to the group id that resolution produced |
| `Run.RequestsCarryToken` | bin/cmd.js:107-241 | every request a run issues carries its method name and the non-empty token that the argument checks found |
| `Run.ReportExplainsByText` | bin/cmd.js:276-285 | a run logs at most one report, exactly when it fails, about the failure that came first (always the failed argument check when there is one); it carries an explanation exactly when that error's text is one of the table's two keys, whichever task produced it |
| `Run.SlackTokenGroupReportedAsMissingToken` | bin/cmd.js:131-133 | with any listing in which the group "SLACK_TOKEN" does not resolve, the run reports "SLACK_TOKEN not found" with the missing-token explanation |
| `Run.CorrectedReportExplainsOnlyArgumentErrors` | bin/cmd.js:276-285 | with the lookup keyed by task as well (the correction below), the one report of a failed run carries an explanation exactly when the argument checks failed for want of a token or of anything to do |
| `Run.ResolvedRunFailures` | bin/cmd.js:157-273 | once the group resolves, the run fails exactly when a requested upload fails, the announcement of an uploaded file fails, or the wait fails, and through no other task |

## Left out

- HTTP transport (`request.post`), `JSON.parse` of reply bodies and
  `fs.createReadStream`: replies enter the model already decoded, as the
  `Replies` of a run. A body that is not JSON, or that lacks the `file` field
  the announcement reads, makes the script throw; the model takes `groups` and
  `file` as present.
- Transport failures of `sendMessage`, `sendConsoleMessage` and `rtm.start`:
  these three callbacks parse the reply body before looking at the error
  (bin/cmd.js:153, 229, 242), so a transport error throws from
  `JSON.parse(undefined)` and ends the process without reaching the final
  callback. The model assumes these three requests get a reply.
- Run.ResolvedRunFailures: covers the failures that reach the final callback
  (upload, announcement, wait); the uncaught throws of the item above are not
  failures of the model's run.
- Run.TaskGating: the counts describe the run uninterrupted, in dependency
  order. The first failure ends the process (bin/cmd.js:285), and the
  announcement (sent after the upload reply) and the console post (sent at end
  of input) are then sent only if their turn came before that failure, which
  is timing.
- Run.ConsolePostedOnce: "exactly one" is likewise for a run that no earlier
  failure ends before standard input does.
- The `async.auto` executor: the run is written out in its fixed dependency
  order instead.
- The WebSocket lifecycle: `Rtm.WaitForText` takes the frames with their
  arrival times relative to the timer. A frame arriving at the very
  millisecond the timer fires is taken to lose the race. The timer is never
  cleared after a match, so the task can call back twice; that is not
  modelled.
- Rtm.EffectiveTimeout: takes as an input the number `setTimeout` makes of the
  `--timeout` text rather than modelling that coercion; no
  seconds-to-milliseconds conversion happens, although the option's help text
  speaks of seconds.
- Option parsing by `stdio.getopt`, the `--verbose` flag, logging and
  `process.exit`. `--group` is declared mandatory (bin/cmd.js:30), so with no
  `--group` at all the option parser stops the program before `checkArgs`
  runs; the order "missing token before missing group" that `Args.CheckArgs`
  states is visible in the whole program only for an empty `--group ""`.
- Which of several failures of concurrent tasks reaches the final callback
  first is timing: `Run.FinalReport` takes its position as an input.
- Errors.Explain: a JavaScript object lookup also finds inherited keys such as
  "toString"; no error text the script produces is such a key, so the table is
  modelled as a plain map.

## Findings

| source | as written | input that shows it | evidently intended | confidence | as-written member | corrected member |
|---|---|---|---|---|---|---|
| bin/cmd.js:131-133, 281 | explanations are looked up by the error text alone, and a failed group resolution produces the text `<group> not found` | `--group SLACK_TOKEN` with no group of that name: the error "SLACK_TOKEN not found" is explained as a missing token | only the argument checks' errors are explained | not executed; low impact | `Run.SlackTokenGroupReportedAsMissingToken` | `Run.CorrectedReportExplainsOnlyArgumentErrors` |

The as-written lookup is `Errors.Explain`, used by `Run.FinalReport`; the
corrected one is `Errors.ExplainFailure`, used by `Run.CorrectedFinalReport`.
