/** The `checkArgs` task: the first task of every run. */
module Args {
  import opened Js
  import opened Config

  const TokenMissing := "SLACK_TOKEN not found"
  const GroupMissing := "group not found"
  const NothingToDo := "nothing to do"

  /** A token is available from `--token` or from `SLACK_TOKEN`. */
  predicate HasToken(o: Options, env: Env) {
    Truthy(o.token) || Truthy(env.slackToken)
  }

  /** At least one action is asked for. */
  predicate HasAction(o: Options) {
    Truthy(o.message) || Truthy(o.file) || o.console || Truthy(o.waitForText)
  }

  /** The error the checks report, or `None` when the run may go on. The
      checks run in a fixed order: a missing token is reported whatever else
      is missing, then a missing group, then the lack of anything to do. */
  function CheckArgs(o: Options, env: Env): (r: Option<string>)
    ensures r == None <==> HasToken(o, env) && Truthy(o.group) && HasAction(o)
    ensures !HasToken(o, env) ==> r == Some(TokenMissing)
    ensures HasToken(o, env) && !Truthy(o.group) ==> r == Some(GroupMissing)
    ensures HasToken(o, env) && Truthy(o.group) && !HasAction(o) ==> r == Some(NothingToDo)
  {
    if !Truthy(o.token) && !Truthy(env.slackToken) then Some(TokenMissing)
    else if !Truthy(o.group) then Some(GroupMissing)
    else if !Truthy(o.message) && !Truthy(o.file) && !o.console && !Truthy(o.waitForText) then Some(NothingToDo)
    else None
  }
}
