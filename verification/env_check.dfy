/** The module-load check of src/env.ts: the required variables are tested
    one after another, the first unset one aborts with status 1, and
    otherwise the three values are exported unchanged. The connection
    string plays no part here. */
module EnvCheck {
  import opened Strings
  import Config

  /** What loading src/env.ts leads to. */
  datatype Checked =
    | Exports(uri: string, user: string, password: string)
    | Abort(status: int, variable: string, message: string)

  /** The position of the first unset name, or `|names|` if all are set. */
  function FirstUnset(env: Config.Env, names: seq<string>): (k: nat)
    ensures k <= |names|
    ensures forall j :: 0 <= j < k ==> Config.IsSet(env, names[j])
    ensures k < |names| ==> !Config.IsSet(env, names[k])
  {
    if |names| == 0 || !Config.IsSet(env, names[0]) then 0
    else 1 + FirstUnset(env, names[1..])
  }

  const NotSetSuffix := " environment variable is not set"

  /** The line printed on stderr for the first unset variable. */
  function NotSetMessage(name: string): string
  {
    "Error: " + name + NotSetSuffix
  }

  /** The message is `"Error: "`, the variable's name, and the fixed
      explanation, in that order. */
  lemma NotSetParts(name: string)
    ensures var m := NotSetMessage(name);
      && |m| == 7 + |name| + |NotSetSuffix|
      && m[..7] == "Error: " && m[7..|m| - |NotSetSuffix|] == name
      && m[|m| - |NotSetSuffix|..] == NotSetSuffix
  {
  }

  /** Different variables are reported with different messages. */
  lemma NotSetNames(a: string, b: string)
    ensures NotSetMessage(a) == NotSetMessage(b) <==> a == b
  {
    NotSetParts(a);
    NotSetParts(b);
  }

  /** The sequential check: the first unset variable in the order URI,
      USER, PASSWORD is the one reported, and only it. */
  function CheckEnv(env: Config.Env): (c: Checked)
    ensures c.Exports? <==> Config.AllSet(env)
    ensures c.Exports? ==>
      c == Exports(env[Config.UriVar], env[Config.UserVar], env[Config.PasswordVar])
    ensures c.Abort? ==>
      && c.status == 1
      && c.message == NotSetMessage(c.variable)
      && exists k :: 0 <= k < |Config.Required| && Config.Required[k] == c.variable
           && !Config.IsSet(env, Config.Required[k])
           && forall j :: 0 <= j < k ==> Config.IsSet(env, Config.Required[j])
  {
    var k := FirstUnset(env, Config.Required);
    if k < |Config.Required| then
      Abort(1, Config.Required[k], NotSetMessage(Config.Required[k]))
    else
      assert Config.Required[0] == Config.UriVar && Config.Required[1] == Config.UserVar
        && Config.Required[2] == Config.PasswordVar;
      Exports(env[Config.UriVar], env[Config.UserVar], env[Config.PasswordVar])
  }

  /** The first unset name is the head of the list of all unset names. */
  lemma {:induction false} FirstUnsetHeadsUnset(env: Config.Env, names: seq<string>)
    ensures FirstUnset(env, names) < |names| <==> Config.Unset(env, names) != []
    ensures FirstUnset(env, names) < |names| ==>
      Config.Unset(env, names)[0] == names[FirstUnset(env, names)]
  {
    if |names| > 0 && Config.IsSet(env, names[0]) {
      FirstUnsetHeadsUnset(env, names[1..]);
    }
  }

  /** On the same variables the two validators agree on whether startup
      fails, and the sequential one reports exactly the first name the
      collecting one lists. */
  lemma AgreesWithMissingVars(env: Config.Env)
    ensures CheckEnv(env).Abort? <==> Config.MissingVars(env) != []
    ensures CheckEnv(env).Abort? ==> CheckEnv(env).variable == Config.MissingVars(env)[0]
    ensures CheckEnv(env).Exports? ==>
      Config.Validate(env) == Config.Serve(Config.ConnectionConfig(
        CheckEnv(env).uri, CheckEnv(env).user, CheckEnv(env).password))
  {
    FirstUnsetHeadsUnset(env, Config.Required);
  }

  /** An empty value is as good as none: it is reported as not set. */
  lemma EmptyIsUnset(env: Config.Env)
    requires Config.UriVar in env && env[Config.UriVar] == ""
    ensures CheckEnv(env) == Abort(1, Config.UriVar, NotSetMessage(Config.UriVar))
  {
  }

  /** The connection string is never consulted: setting it changes nothing. */
  lemma ConnectionIgnored(env: Config.Env, s: string)
    ensures CheckEnv(env[Config.ConnectionVar := s]) == CheckEnv(env)
  {
    var e := env[Config.ConnectionVar := s];
    assert forall n :: n in Config.Required ==> (Config.IsSet(e, n) <==> Config.IsSet(env, n));
    assert Config.Required[0] == Config.UriVar && Config.Required[1] == Config.UserVar;
  }

  /** An environment holding only a well-formed connection string starts the
      server under src/index.ts but fails this check on the URI. */
  lemma OnlyConnectionString(u: string, us: string, p: string)
    requires ',' !in u && ',' !in us && ',' !in p && u != "" && us != "" && p != ""
    ensures CheckEnv(map[Config.ConnectionVar := Join([u, us, p], ",")])
      == Abort(1, Config.UriVar, NotSetMessage(Config.UriVar))
    ensures Config.ResolveAsWritten(map[Config.ConnectionVar := Join([u, us, p], ",")])
      == Config.Serve(Config.ConnectionConfig(u, us, p))
  {
    var env := map[Config.ConnectionVar := Join([u, us, p], ",")];
    Config.ConnectionPrecedence(env, u, us, p);
    assert !Config.IsSet(env, Config.UriVar);
  }
}
