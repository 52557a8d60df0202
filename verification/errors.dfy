/** The final callback's lookup of a human-readable explanation for an error. */
module Errors {
  import opened Js
  import Args
  import Groups

  /** The named tasks of the run, in the order their dependencies impose. */
  datatype Task =
    | CheckArgs | ListGroups | GroupId
    | SendMessage | UploadFile | SendFileMessage | SendConsoleMessage | WaitForText

  /** An error together with the task that reported it. */
  datatype Failure = Failure(task: Task, error: string)

  /** The explanation table, keyed by error text. */
  const Messages: map<string, string> := map[
    Args.TokenMissing := "Please either set environment variable SLACK_TOKEN or specify token using --token.",
    Args.NothingToDo := "Please specify either message, file name or running in console mode."
  ]

  /** `ERROR_MESSAGES[err]` as the command performs it: by the error text alone. */
  function Explain(err: string): (m: Value)
    ensures m.Str? <==> err == Args.TokenMissing || err == Args.NothingToDo
    ensures m.Str? ==> m.s == Messages[err]
  {
    if err in Messages then Str(Messages[err]) else Undefined
  }

  /** Looking the error up by text alone misreports a group that happens to be
      called "SLACK_TOKEN": whatever the listing, when that group does not
      resolve, the resolution error reads "SLACK_TOKEN not found" and is
      explained as a missing token. */
  lemma GroupNamedSlackTokenMisexplained(gs: seq<Groups.Group>)
    requires Groups.GroupId(gs, Str("SLACK_TOKEN")).Err?
    ensures Groups.GroupId(gs, Str("SLACK_TOKEN")) == Err(Args.TokenMissing)
    ensures Explain(Groups.GroupId(gs, Str("SLACK_TOKEN")).error) == Str(Messages[Args.TokenMissing])
  {
    assert Text(Str("SLACK_TOKEN")) + " not found" == Args.TokenMissing;
  }

  /** The lookup keyed by the failing task as well: only the argument checks'
      errors carry an explanation. */
  function ExplainFailure(f: Failure): (m: Value)
    ensures m.Str? <==> f.task == CheckArgs && (f.error == Args.TokenMissing || f.error == Args.NothingToDo)
    ensures m.Str? ==> m.s == Messages[f.error]
  {
    if f.task == CheckArgs then Explain(f.error) else Undefined
  }
}
