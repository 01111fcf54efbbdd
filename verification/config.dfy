/** Startup configuration of the server (src/index.ts): an optional
    `NEO4J_CONNECTION` string overrides the three discrete variables, then
    every required variable that is unset or empty is reported and the
    process exits with status 1 before any driver is created. */
module Config {
  import opened Wrappers
  import opened Strings

  const ConnectionVar := "NEO4J_CONNECTION"
  const UriVar := "NEO4J_URI"
  const UserVar := "NEO4J_USER"
  const PasswordVar := "NEO4J_PASSWORD"

  /** The required variables, in the order they are checked and reported. */
  const Required: seq<string> := [UriVar, UserVar, PasswordVar]

  /** The process environment; a name that is not a key is unset. */
  type Env = map<string, string>

  /** `process.env[name]` is truthy: set to a non-empty string. */
  predicate IsSet(env: Env, name: string)
  {
    name in env && env[name] != ""
  }

  /** `process.env[name]`, with `None` for `undefined`. */
  function Lookup(env: Env, name: string): Option<string>
  {
    if name in env then Some(env[name]) else None
  }

  /** The `i`-th element of a destructuring `const [a, b, c] = parts`. */
  function Field(parts: seq<string>, i: nat): (r: Option<string>)
    ensures r.Some? <==> i < |parts|
  {
    if i < |parts| then Some(parts[i]) else None
  }

  /** Assigns an optional value to a variable, `None` leaving it unset. */
  function Store(env: Env, name: string, v: Option<string>): (e: Env)
    ensures Lookup(e, name) == v
    ensures forall n :: n != name ==> Lookup(e, n) == Lookup(env, n)
  {
    match v
    case None => env - {name}
    case Some(s) => env[name := s]
  }

  /** Assignment to `process.env` as Node.js performs it: every value is
      converted to a string, so `undefined` is stored as `"undefined"`. */
  function StoreCoerced(env: Env, name: string, v: Option<string>): (e: Env)
    ensures Lookup(e, name) == Some(if v.Some? then v.value else "undefined")
    ensures forall n :: n != name ==> Lookup(e, n) == Lookup(env, n)
  {
    env[name := match v case None => "undefined" case Some(s) => s]
  }

  /** The variables after the connection string is applied: when it is
      truthy, its first three comma-separated fields replace the URI, user
      and password, a missing field leaving its variable unset. */
  function ApplyConnection(env: Env): (e: Env)
    ensures !IsSet(env, ConnectionVar) ==> e == env
    ensures IsSet(env, ConnectionVar) ==>
      var parts := Split(env[ConnectionVar], ',');
      && Lookup(e, UriVar) == Some(parts[0])
      && Lookup(e, UserVar) == Field(parts, 1)
      && Lookup(e, PasswordVar) == Field(parts, 2)
    ensures forall n :: n !in Required ==> Lookup(e, n) == Lookup(env, n)
  {
    if !IsSet(env, ConnectionVar) then env
    else
      var parts := Split(env[ConnectionVar], ',');
      Store(Store(Store(env, UriVar, Field(parts, 0)), UserVar, Field(parts, 1)), PasswordVar, Field(parts, 2))
  }

  /** The connection string applied as the code is written: the missing
      fields of a short string are stored as the text `"undefined"`. */
  function ApplyConnectionAsWritten(env: Env): (e: Env)
    ensures !IsSet(env, ConnectionVar) ==> e == env
    ensures IsSet(env, ConnectionVar) ==>
      var parts := Split(env[ConnectionVar], ',');
      && Lookup(e, UriVar) == Some(parts[0])
      && Lookup(e, UserVar) == Some(if |parts| > 1 then parts[1] else "undefined")
      && Lookup(e, PasswordVar) == Some(if |parts| > 2 then parts[2] else "undefined")
    ensures forall n :: n !in Required ==> Lookup(e, n) == Lookup(env, n)
  {
    if !IsSet(env, ConnectionVar) then env
    else
      var parts := Split(env[ConnectionVar], ',');
      StoreCoerced(StoreCoerced(StoreCoerced(env, UriVar, Field(parts, 0)), UserVar, Field(parts, 1)),
        PasswordVar, Field(parts, 2))
  }

  /** `a` lists some of the elements of `b`, in `b`'s order. */
  predicate IsSubsequence(a: seq<string>, b: seq<string>)
    decreases |b|
  {
    if |a| == 0 then true
    else if |b| == 0 then false
    else if a[0] == b[0] then IsSubsequence(a[1..], b[1..])
    else IsSubsequence(a, b[1..])
  }

  /** The names among `names` that are unset: `names.filter(n => !env[n])`. */
  function Unset(env: Env, names: seq<string>): (r: seq<string>)
    ensures forall n :: n in r <==> n in names && !IsSet(env, n)
    ensures IsSubsequence(r, names)
  {
    if |names| == 0 then []
    else
      var rest := Unset(env, names[1..]);
      if IsSet(env, names[0]) then
        assert |rest| > 0 ==> rest[0] in rest && rest[0] != names[0];
        rest
      else [names[0]] + rest
  }

  /** All three required variables are set. */
  predicate AllSet(env: Env)
  {
    IsSet(env, UriVar) && IsSet(env, UserVar) && IsSet(env, PasswordVar)
  }

  /** `missingVars`: the required names whose values are unset or empty. */
  function MissingVars(env: Env): (r: seq<string>)
    ensures forall n :: n in r <==> n in Required && !IsSet(env, n)
    ensures IsSubsequence(r, Required)
    ensures r == [] <==> AllSet(env)
  {
    var r := Unset(env, Required);
    assert r != [] ==> r[0] in r;
    assert UriVar in Required && UserVar in Required && PasswordVar in Required;
    r
  }

  datatype ConnectionConfig = ConnectionConfig(uri: string, user: string, password: string)

  /** What startup leads to: serving with a driver configured from the
      three values, or exiting with a status and a usage message on stderr. */
  datatype Startup =
    | Serve(config: ConnectionConfig)
    | Exit(status: int, missing: seq<string>, message: string)

  /** The fixed part of the usage text that precedes the list of names. */
  const UsagePrefix := "\nError: Missing required environment variables: "

  /** The fixed part of the usage text that follows the list of names. */
  const UsageTail: string :=
    "\n\n"
    + "You can provide these variables in two ways:\n\n"
    + "1. Using separate environment variables:\n"
    + "   NEO4J_URI=<your-uri> NEO4J_USER=<your-user> NEO4J_PASSWORD=<your-password> npx neo4j-mcpserver\n\n"
    + "2. Using a single connection string:\n"
    + "   NEO4J_CONNECTION=<uri>,<user>,<password> npx neo4j-mcpserver\n\n"
    + "Example:\n"
    + "   NEO4J_CONNECTION=neo4j+s://example.databases.neo4j.io,neo4j,your-password npx neo4j-mcpserver\n"

  /** The usage text printed when variables are missing. */
  function UsageMessage(missing: seq<string>): string
  {
    UsagePrefix + Join(missing, ", ") + UsageTail
  }

  /** The usage text is the fixed opening, the missing names separated by
      ", ", and the fixed instructions, in that order. */
  lemma UsageParts(missing: seq<string>)
    ensures var m := UsageMessage(missing);
      && |m| == |UsagePrefix| + |Join(missing, ", ")| + |UsageTail|
      && m[..|UsagePrefix|] == UsagePrefix
      && m[|UsagePrefix|..|m| - |UsageTail|] == Join(missing, ", ")
      && m[|m| - |UsageTail|..] == UsageTail
  {
  }

  /** Two usage texts are equal exactly when the names, joined by ", ",
      read the same. */
  lemma UsageNamesMissing(a: seq<string>, b: seq<string>)
    ensures UsageMessage(a) == UsageMessage(b) <==> Join(a, ", ") == Join(b, ", ")
  {
    UsageParts(a);
    UsageParts(b);
  }

  /** Every element of a subsequence is an element of the whole. */
  lemma {:induction false} SubsequenceElements(a: seq<string>, b: seq<string>)
    requires IsSubsequence(a, b)
    decreases |b|
    ensures forall i :: 0 <= i < |a| ==> a[i] in b
  {
    if |a| > 0 {
      if a[0] == b[0] {
        SubsequenceElements(a[1..], b[1..]);
        forall i | 0 <= i < |a|
          ensures a[i] in b
        {
          if i > 0 {
            assert a[i] == a[1..][i - 1];
          }
        }
      } else {
        SubsequenceElements(a, b[1..]);
      }
    }
  }

  /** For lists of required names, as `missingVars` always is, two usage
      texts are equal exactly when they list the same names. */
  lemma UsageListsMissing(a: seq<string>, b: seq<string>)
    requires IsSubsequence(a, Required) && IsSubsequence(b, Required)
    ensures UsageMessage(a) == UsageMessage(b) <==> a == b
  {
    UsageNamesMissing(a, b);
    SubsequenceElements(a, Required);
    SubsequenceElements(b, Required);
    assert forall n :: n in Required ==> ',' !in n && n != "";
    assert |a| > 0 ==> a[0] <= Join(a, ", ") && |a[0]| > 0;
    assert |b| > 0 ==> b[0] <= Join(b, ", ") && |b[0]| > 0;
    if Join(a, ", ") == Join(b, ", ") && |a| > 0 && |b| > 0 {
      JoinInjective(a, b, ", ");
    }
  }

  /** The missing-variable check on the variables after the connection
      string has been applied. */
  function Validate(e: Env): (s: Startup)
    ensures s.Serve? <==> AllSet(e)
    ensures s.Serve? ==> s.config == ConnectionConfig(e[UriVar], e[UserVar], e[PasswordVar])
    ensures s.Exit? ==> s.status == 1 && s.missing == MissingVars(e) && |s.missing| > 0
    ensures s.Exit? ==> s.message == UsageMessage(s.missing)
  {
    var missing := MissingVars(e);
    if |missing| > 0 then Exit(1, missing, UsageMessage(missing))
    else Serve(ConnectionConfig(e[UriVar], e[UserVar], e[PasswordVar]))
  }

  /** Startup configuration resolution as intended: a field missing from
      the connection string leaves its variable unset. */
  function Resolve(env: Env): Startup
  {
    Validate(ApplyConnection(env))
  }

  /** Startup configuration resolution as the code is written: a field
      missing from the connection string becomes the text "undefined". */
  function ResolveAsWritten(env: Env): Startup
  {
    Validate(ApplyConnectionAsWritten(env))
  }

  /** The intended resolution either serves three non-empty values or
      exits with status 1 naming, in order, the required variables still
      missing. A truthy connection string supplies all three values, so it
      serves only when the string has at least three fields. */
  lemma ResolveOutcome(env: Env)
    ensures var r := Resolve(env);
      && (r.Serve? ==> r.config.uri != "" && r.config.user != "" && r.config.password != "")
      && (r.Exit? ==> r.status == 1 && r.missing != [] && IsSubsequence(r.missing, Required))
      && (!IsSet(env, ConnectionVar) ==> r == Validate(env))
      && (IsSet(env, ConnectionVar) && r.Serve? ==>
            var parts := Split(env[ConnectionVar], ',');
            |parts| >= 3 && r.config == ConnectionConfig(parts[0], parts[1], parts[2]))
  {
  }

  /** As written, the resolution has the same shape, but with a truthy
      connection string the user and password it serves are the text
      "undefined" when the string has too few fields. */
  lemma ResolveAsWrittenOutcome(env: Env)
    ensures var r := ResolveAsWritten(env);
      && (r.Serve? ==> r.config.uri != "" && r.config.user != "" && r.config.password != "")
      && (r.Exit? ==> r.status == 1 && r.missing != [] && IsSubsequence(r.missing, Required))
      && (!IsSet(env, ConnectionVar) ==> r == Validate(env))
      && (IsSet(env, ConnectionVar) && r.Serve? ==>
            var parts := Split(env[ConnectionVar], ',');
            r.config == ConnectionConfig(parts[0],
              if |parts| > 1 then parts[1] else "undefined",
              if |parts| > 2 then parts[2] else "undefined"))
  {
  }

  /** With at least three fields in the connection string, the code as
      written and the intended resolution apply it identically. */
  lemma AgreeWhenThreeFields(env: Env)
    requires IsSet(env, ConnectionVar) && Count(env[ConnectionVar], ',') >= 2
    ensures ApplyConnection(env) == ApplyConnectionAsWritten(env)
    ensures ResolveAsWritten(env) == Resolve(env)
  {
    SplitLength(env[ConnectionVar], ',');
  }

  /** Without a truthy connection string the discrete variables are used as
      they are. */
  lemma DiscreteOnly(env: Env)
    requires !IsSet(env, ConnectionVar)
    ensures ResolveAsWritten(env) == Resolve(env) == Validate(env)
    ensures Resolve(env).Serve? <==> AllSet(env)
  {
  }

  /** The names among `names` that are unset depend only on whether each
      of them is set. */
  lemma {:induction false} UnsetAgrees(e: Env, d: Env, names: seq<string>)
    requires forall n :: n in names ==> (IsSet(e, n) <==> IsSet(d, n))
    ensures Unset(e, names) == Unset(d, names)
  {
    if |names| > 0 {
      UnsetAgrees(e, d, names[1..]);
    }
  }

  /** Environments that agree on the three required variables start up alike. */
  lemma ValidateAgrees(e: Env, d: Env)
    requires forall n :: n in Required ==> Lookup(e, n) == Lookup(d, n)
    ensures Validate(e) == Validate(d)
  {
    assert forall n :: n in Required ==> (IsSet(e, n) <==> IsSet(d, n));
    UnsetAgrees(e, d, Required);
    assert Required[0] in Required && Required[1] in Required && Required[2] in Required;
  }

  /** The discrete environment that names the three values directly. */
  function Discrete(u: string, us: string, p: string): Env
  {
    map[UriVar := u, UserVar := us, PasswordVar := p]
  }

  /** A connection string `uri,user,password` takes precedence over the
      discrete variables, whatever they hold, and resolves exactly as the
      discrete variables holding the same three values would. */
  lemma ConnectionPrecedence(env: Env, u: string, us: string, p: string)
    requires ',' !in u && ',' !in us && ',' !in p
    requires ConnectionVar in env && env[ConnectionVar] == Join([u, us, p], ",")
    ensures ResolveAsWritten(env) == Resolve(env) == Resolve(Discrete(u, us, p))
    ensures u != "" && us != "" && p != "" ==> ResolveAsWritten(env) == Serve(ConnectionConfig(u, us, p))
  {
    SplitJoin([u, us, p], ',');
    SplitLength(env[ConnectionVar], ',');
    AgreeWhenThreeFields(env);
    var d := Discrete(u, us, p);
    assert !IsSet(d, ConnectionVar);
    ValidateAgrees(ApplyConnection(env), d);
  }

  /** Only the first three fields are used: a comma inside the password
      cuts it short, and whatever follows the third comma is ignored. */
  lemma PasswordTruncated(env: Env, u: string, us: string, p: string, tail: string)
    requires ',' !in u && ',' !in us && ',' !in p
    requires ConnectionVar in env && env[ConnectionVar] == Join([u, us, p, tail], ",")
    ensures ResolveAsWritten(env) == Resolve(env) == Resolve(Discrete(u, us, p))
  {
    SplitJoinPrefix([u, us, p], tail, ',');
    assert [u, us, p] + [tail] == [u, us, p, tail];
    assert IsSet(env, ConnectionVar);
    SplitLength(env[ConnectionVar], ',');
    AgreeWhenThreeFields(env);
    var d := Discrete(u, us, p);
    assert !IsSet(d, ConnectionVar);
    ValidateAgrees(ApplyConnection(env), d);
  }

  /** A connection string with fewer than three fields leaves the password
      (and, with a single field, the user) unset, and the missing check
      reports it. */
  lemma ShortConnectionReported(env: Env)
    requires IsSet(env, ConnectionVar) && Count(env[ConnectionVar], ',') < 2
    ensures Resolve(env).Exit? && Resolve(env).status == 1
    ensures PasswordVar in Resolve(env).missing
    ensures Count(env[ConnectionVar], ',') == 0 ==> UserVar in Resolve(env).missing
  {
    SplitLength(env[ConnectionVar], ',');
    var e := ApplyConnection(env);
    assert !IsSet(e, PasswordVar);
  }

  /** As written, a connection string with fewer than three fields passes
      the missing check whenever its fields are non-empty: the absent fields
      become the text "undefined". */
  lemma ShortConnectionAsWritten(env: Env)
    requires IsSet(env, ConnectionVar) && Count(env[ConnectionVar], ',') < 2
    ensures ResolveAsWritten(env).Exit? ==> PasswordVar !in ResolveAsWritten(env).missing
    ensures ResolveAsWritten(env).Serve? ==> ResolveAsWritten(env).config.password == "undefined"
  {
    SplitLength(env[ConnectionVar], ',');
  }

  /** As written, a connection string `uri,user` with non-empty comma-free
      fields starts the server with the password "undefined". */
  lemma TwoFieldsAsWritten(env: Env, u: string, us: string)
    requires ',' !in u && ',' !in us && u != "" && us != ""
    requires ConnectionVar in env && env[ConnectionVar] == Join([u, us], ",")
    ensures ResolveAsWritten(env) == Serve(ConnectionConfig(u, us, "undefined"))
  {
    SplitJoin([u, us], ',');
    assert IsSet(env, ConnectionVar);
    var e := ApplyConnectionAsWritten(env);
    assert AllSet(e);
  }

  /** As intended, the same connection string has its password reported missing. */
  lemma TwoFieldsReported(env: Env, u: string, us: string)
    requires ',' !in u && ',' !in us && u != "" && us != ""
    requires ConnectionVar in env && env[ConnectionVar] == Join([u, us], ",")
    ensures Resolve(env) == Exit(1, [PasswordVar], UsageMessage([PasswordVar]))
  {
    SplitJoin([u, us], ',');
    assert IsSet(env, ConnectionVar);
    var e := ApplyConnection(env);
    assert IsSet(e, UriVar) && IsSet(e, UserVar) && !IsSet(e, PasswordVar);
    assert Unset(e, Required[2..]) == [PasswordVar];
    assert Unset(e, Required[1..]) == [PasswordVar];
    assert Unset(e, Required) == [PasswordVar];
  }

  /** The concrete input `NEO4J_CONNECTION=bolt://db,neo4j`. */
  lemma ShortConnectionCounterexample()
    ensures ResolveAsWritten(map[ConnectionVar := "bolt://db,neo4j"])
      == Serve(ConnectionConfig("bolt://db", "neo4j", "undefined"))
    ensures Resolve(map[ConnectionVar := "bolt://db,neo4j"])
      == Exit(1, [PasswordVar], UsageMessage([PasswordVar]))
  {
    assert Join(["bolt://db", "neo4j"], ",") == "bolt://db,neo4j";
    TwoFieldsAsWritten(map[ConnectionVar := "bolt://db,neo4j"], "bolt://db", "neo4j");
    TwoFieldsReported(map[ConnectionVar := "bolt://db,neo4j"], "bolt://db", "neo4j");
  }
}
