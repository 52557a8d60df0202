/** How the command addresses the remote API: one URL per method, carrying the token. */
module Api {
  import opened Js
  import opened Config

  const Base := "https://slack.com/api/"
  const TokenQuery := "?token="

  /** `options.token || process.env.SLACK_TOKEN`. */
  function Token(o: Options, env: Env): Value {
    Or(o.token, env.slackToken)
  }

  /** The request target for an API method. */
  function Url(name: string, o: Options, env: Env): string {
    Base + name + TokenQuery + Text(Token(o, env))
  }

  /** Reads a request target back into its method name and token: the method name
      runs from the end of the base address to the first '?', the token is
      everything after the token query. */
  function ParseUrl(url: string): Option<(string, string)> {
    if Base <= url then
      var rest := url[|Base|..];
      var i := IndexOf(rest, '?');
      var query := rest[i..];
      if TokenQuery <= query then Some((rest[..i], query[|TokenQuery|..])) else None
    else None
  }

  /** Every request target names its method and carries the token in its query,
      for any method name free of '?' (all the method names the command uses). */
  lemma UrlRoundTrip(name: string, o: Options, env: Env)
    requires '?' !in name
    ensures ParseUrl(Url(name, o, env)) == Some((name, Text(Token(o, env))))
  {
    var token := Text(Token(o, env));
    var url := Url(name, o, env);
    assert url == Base + (name + TokenQuery + token);
    var rest := url[|Base|..];
    assert rest == name + ['?'] + ("token=" + token);
    IndexOfSeparator(name, '?', "token=" + token);
    assert rest[..|name|] == name;
    assert rest[|name|..] == TokenQuery + token;
  }

  /** The explicit `--token` wins whenever it is non-empty; otherwise the
      environment's value is sent as it is, and a missing one prints as "undefined". */
  lemma TokenPrecedence(name: string, o: Options, env: Env)
    requires '?' !in name
    ensures Truthy(o.token) ==> ParseUrl(Url(name, o, env)) == Some((name, o.token.s))
    ensures !Truthy(o.token) && env.slackToken.Str? ==>
              ParseUrl(Url(name, o, env)) == Some((name, env.slackToken.s))
    ensures !Truthy(o.token) && env.slackToken.Undefined? ==>
              ParseUrl(Url(name, o, env)) == Some((name, "undefined"))
  {
    UrlRoundTrip(name, o, env);
  }
}
