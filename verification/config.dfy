/** The parsed command line and process environment a run reads. */
module Config {
  import opened Js

  /** The options `stdio.getopt` produces: `--message`, `--group`, `--file`,
      `--token`, `--waitForText` and `--timeout` take one argument each;
      `--console` is a flag, true when given. */
  datatype Options = Options(
    message: Value,
    group: Value,
    file: Value,
    token: Value,
    console: bool,
    waitForText: Value,
    timeout: Value)

  /** The one environment variable the command reads. */
  datatype Env = Env(slackToken: Value)

  /** Milliseconds to wait for a message when `--timeout` is not given. */
  const DefaultTimeout: nat := 30000
}
