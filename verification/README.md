# neo4j-mcpserver in Dafny

This project models the pure core of `neo4j-mcpserver`. That program is a
stdio tool server that runs Cypher queries against Neo4j and returns the
results as text. The model covers four pieces:

- **Result serialiser** (`Format`). `formatValue` renders one field value and
  `formatResults` lays out a result set. Graph values are a sum type:
  `Null | Scalar | Node | Relationship | Path | List | Object`. A record is an
  ordered sequence of (key, value) pairs.
- **Startup configuration** (`Config`), from `src/index.ts`. An optional
  `NEO4J_CONNECTION` string is split on `,`. Its first three fields overwrite
  `NEO4J_URI`, `NEO4J_USER` and `NEO4J_PASSWORD`. Every required variable that
  is unset or empty is then reported, and the process exits with status 1
  before any driver exists. The environment is a `map<string, string>`.
- **Sequential check** (`EnvCheck`), from `src/env.ts`. It tests the same three
  names in order and aborts on the first unset one. It never looks at the
  connection string.
- **Tool-call handler** (`Dispatch`). It routes on the tool name, forwards the
  query and parameters to an executor, and wraps the outcome in an envelope.
  The executor is a function parameter that returns the records or a thrown
  value.

`Strings` gives the JavaScript semantics the core relies on:
`Array.prototype.join`, `String.prototype.split` with a one-character
separator, and decimal rendering of integers. `Wrappers.Option` stands for
`undefined`. A JavaScript number is a finite value or one of `NaN`,
`Infinity` and `-Infinity`, which `String` renders by name.

Some behaviour belongs to library code outside this model: `JSON.stringify`,
`String` of a finite floating-point number, and the message text the protocol
library's `McpError` builds. These are fields of a `Foreign` record passed as
a parameter, so every lemma holds for any such behaviour. Driver `Integer`
identities are rendered in decimal by `IntToString`.

Two behaviours of the code are worth stating plainly:

- An unknown tool name does not reach the transport as a protocol error.
  `McpError` is a subclass of `Error`, so the handler's own `catch` turns it
  into an `isError` envelope (src/index.ts:132-150).
- Fields of the connection string after the third are ignored, so a comma in
  the password truncates it. A string with fewer than three fields is handled
  as described under Findings.

`Config.ResolveAsWritten` is the program's startup resolution: a field
missing from the connection string is stored as the text "undefined".
`Config.Resolve` is the corrected resolution, in which a missing field leaves
its variable unset. The two agree whenever the connection string has at least
three fields, or is unset or empty. Rows marked "Corrected" are about
`Resolve` only.

## Model

| member | source | states |
|---|---|---|
| Format.FormatRecords | src/index.ts:174-190 | The output is "No results found." exactly when there are no records; any other output starts with "Results:" |
| Format.FormatResults | src/index.ts:174-177 | An absent or empty record array gives exactly "No results found.", and nothing else gives that text |
| Format.ShowPrim | src/index.ts:217 | `String(v)` of a primitive: a string is itself, a boolean is "true" exactly when it is true and "false" exactly when it is false, a finite number uses the host's rendering, and NaN, Infinity and -Infinity render by name |
| Format.ValueShapes | src/index.ts:192-218 | `formatValue` on each kind: null or undefined gives "null"; a primitive gives `String(v)`; a node, relationship or path gives text starting "Node(id=", "Relationship(id=" or "Path(length=" and ending ")"; a list is bracketed by "[" and "]"; any other object gives its JSON |
| Format.FieldLineParts | src/index.ts:185 | A field line is the key, then ": ", then the value's rendering, and nothing else |
| Format.FieldLineValues | src/index.ts:185 | For a fixed key, two field lines are equal exactly when the values render alike |
| Format.HeaderNumber | src/index.ts:182 | The header for the record at 0-based position i is "\nRecord ", decimal digits that read back as i+1, then ":" |
| Format.FormatItems | src/index.ts:209-210 | A list's element renderings line up one-to-one with its elements, each being that element's own `formatValue` |
| Format.BlocksLayout | src/index.ts:181-187 | Within the pushed lines, record i's header sits at offset Width(rs[..i]), and its k-th field line follows at offset k+1 |
| Format.ResultsLayout | src/index.ts:179-189 | The output is the pushed lines joined by "\n". These are "Results:", then for each record in input order "\nRecord {i+1}:" followed immediately by one "{key}: {formatValue(v)}" per key in key order. There are 1 + Σ(1 + #keys) lines |
| Format.RecordExample | src/index.ts:174-218 | The record {a: 1, b: "x", c: null} renders as "Results:\n\nRecord 1:\na: 1\nb: x\nc: null"; null renders as "null" |
| Format.OutputLines | src/index.ts:179-189 | When keys and rendered values are single-line, splitting the output at line breaks gives "Results:" and, per record, a blank line, "Record n:" and its field lines: 1 + Σ(2 + #keys) lines |
| Format.ListFormat | src/index.ts:209-211 | A list renders like a reference definition that writes "[", the elements separated by ", ", then "]". The empty list gives "[]" |
| Format.PathSummary | src/index.ts:205-207 | Two paths render alike if and only if they have the same number of segments, whatever their nodes and relationships |
| Format.SummaryDeterminesLength | src/index.ts:206 | The path summary text determines the segment count |
| Format.PathExamples | src/index.ts:205-207 | Paths with 0 and 2 segments render as "Path(length=0, nodes=1)" and "Path(length=2, nodes=3)" |
| Format.NodeExample | src/index.ts:197-199 | Node 7 labelled Person with properties {"name":"Al"} renders as Node(id=7, labels=[Person], properties={"name":"Al"}) |
| Format.NodeIdentity | src/index.ts:197-199 | Two nodes with non-negative identities that render alike have the same identity, whatever their labels, properties and renderers |
| Format.RelationshipIdentity | src/index.ts:201-203 | Two relationships with non-negative identities that render alike have the same identity, whatever their type, properties and renderers |
| Format.RelationshipExample | src/index.ts:201-203 | Relationship 3 of type KNOWS with no properties renders as Relationship(id=3, type=KNOWS, properties={}) |
| Strings.JoinSplit | src/index.ts:20 | Joining the comma-split fields with "," restores the connection string |
| Strings.SplitJoin | src/index.ts:20 | Splitting comma-free fields joined by "," gives back exactly those fields |
| Strings.SplitJoinPrefix | src/index.ts:20 | Comma-free leading fields are recovered by the split, whatever follows them |
| Strings.SplitLength | src/index.ts:20 | The split yields one more field than there are commas |
| Strings.JoinInjective | src/index.ts:32 | Joining non-empty lists with a separator that starts with a character no part contains loses nothing: equal joins come from equal lists |
| Strings.ParseNatToString | src/index.ts:182 | The decimal rendering of record numbers and path lengths reads back as the same number |
| Config.StoreCoerced | src/index.ts:21-23 | Assigning to `process.env` stores `undefined` as the text "undefined" and leaves other variables alone |
| Config.ApplyConnection | src/index.ts:17-24 | Corrected: a falsy connection string changes nothing. Otherwise field 0 becomes the URI and fields 1 and 2, if present, the user and password; an absent field leaves its variable unset. Other variables are untouched |
| Config.ApplyConnectionAsWritten | src/index.ts:17-24 | As written: a falsy connection string changes nothing. Otherwise field 0 becomes the URI, and fields 1 and 2 the user and password, each stored as "undefined" when absent. Other variables are untouched |
| Config.Unset | src/index.ts:28 | The filter keeps exactly the unset or empty names, in their original order |
| Config.MissingVars | src/index.ts:27-28 | `missingVars` is the subsequence of [URI, USER, PASSWORD] whose values are unset or empty; it is empty exactly when all three are set |
| Config.Validate | src/index.ts:26-46 | Exit with status 1, the missing list and the usage text exactly when some variable is missing. Otherwise serve with the three values unchanged |
| Config.UsageParts | src/index.ts:31-44 | The usage text is the fixed opening line, the missing names joined by ", ", and the fixed instructions, in that order |
| Config.UsageNamesMissing | src/index.ts:31-44 | Two usage texts are equal exactly when the names, joined by ", ", read the same |
| Config.UsageListsMissing | src/index.ts:28-44 | For lists of required names in order, as `missingVars` always is, two usage texts are equal exactly when they list the same names |
| Config.ResolveOutcome | src/index.ts:17-46 | Corrected: startup serves three non-empty values or exits with status 1, naming the missing variables in order. Without a truthy connection string the discrete variables decide; with one, serving needs at least three fields and uses the first three |
| Config.ResolveAsWrittenOutcome | src/index.ts:17-46 | As written: the same, except that with a truthy connection string the served user and password are "undefined" when their fields are absent |
| Config.AgreeWhenThreeFields | src/index.ts:17-24 | With at least two commas in the connection string, the code as written and the corrected model apply it identically and resolve alike |
| Config.ValidateAgrees | src/index.ts:27-28 | Environments that agree on the three required variables give the same startup outcome |
| Config.DiscreteOnly | src/index.ts:17-30 | Without a truthy connection string, the discrete variables decide, as written and corrected alike, and startup succeeds exactly when all three are set |
| Config.ConnectionPrecedence | src/index.ts:17-30 | A connection string "u,us,p" overrides any discrete variables. As written and corrected alike, it resolves exactly as discrete variables holding u, us, p would, and serves (u, us, p) when all three are non-empty |
| Config.PasswordTruncated | src/index.ts:20-23 | In "u,us,p,rest" only the first three fields count, as written and corrected alike, so a comma in the password cuts it short |
| Config.ShortConnectionReported | src/index.ts:19-30 | Corrected: with fewer than three fields the password is reported missing, and with a single field the user is too |
| Config.ShortConnectionAsWritten | src/index.ts:19-30 | As written: with fewer than three fields the password is never reported, and startup that succeeds uses the password "undefined" |
| Config.TwoFieldsAsWritten | src/index.ts:19-30 | As written: "u,us" with non-empty fields starts the server with password "undefined" |
| Config.TwoFieldsReported | src/index.ts:19-46 | Corrected: "u,us" exits with status 1 and reports NEO4J_PASSWORD alone |
| Config.ShortConnectionCounterexample | src/index.ts:19-46 | NEO4J_CONNECTION=bolt://db,neo4j: as written it serves with password "undefined"; corrected it exits, reporting NEO4J_PASSWORD |
| EnvCheck.FirstUnset | src/env.ts:17-22 | Returns the position of the first unset name: every earlier name is set, and the one at that position is not |
| EnvCheck.CheckEnv | src/env.ts:17-28 | Exports happen exactly when all three variables are set, with the environment values unchanged. Otherwise the check aborts with status 1, naming the first unset variable in the order URI, USER, PASSWORD |
| EnvCheck.NotSetParts | src/env.ts:20 | The abort message is "Error: ", the variable's name, then " environment variable is not set" |
| EnvCheck.NotSetNames | src/env.ts:20 | Different variables are reported with different messages |
| EnvCheck.FirstUnsetHeadsUnset | src/env.ts:17-22 | The first unset name is the head of the list of all unset names |
| EnvCheck.AgreesWithMissingVars | src/env.ts:17-22 | On the same variables, the check aborts exactly when `missingVars` would be non-empty, and names its first entry. When it exports, the collecting check serves the same values |
| EnvCheck.EmptyIsUnset | src/env.ts:19-21 | An empty URI is reported as not set |
| EnvCheck.ConnectionIgnored | src/env.ts:17-23 | Setting NEO4J_CONNECTION to any value never changes the outcome |
| EnvCheck.OnlyConnectionString | src/env.ts:17-23 | An environment holding only "u,us,p" serves under src/index.ts but aborts on NEO4J_URI here |
| Dispatch.Catch | src/index.ts:142-153 | An `Error` becomes an envelope "Neo4j error: {message}" with `isError`. Any other throwable is rethrown |
| Dispatch.RequestOf | src/index.ts:123-130 | `arguments ?? {}`: the query is forwarded exactly when present; the parameters are forwarded when present and otherwise default to {} (line 157) |
| Dispatch.HandleCall | src/index.ts:120-157 | The executor is called exactly when the name is "neo4j-query". It gets `query` as given and `parameters` defaulting to {}. Only a non-`Error` thrown by the executor escapes. A reply without the error flag carries the formatted records |
| Dispatch.ErrorEnvelope | src/index.ts:125-150 | The reply is an error envelope exactly when the name is unknown or the executor threw an `Error`; its text is then "Neo4j error: " + message |
| Dispatch.UnknownTool | src/index.ts:125-150 | An unknown name never reaches the executor. It is answered with an isError envelope carrying the MethodNotFound (-32601) error's message, and nothing is thrown |
| Dispatch.SuccessEnvelope | src/index.ts:136-141 | A completed query yields one text block holding the formatted records, with no error flag; no records gives "No results found." |
| Dispatch.AbsentArguments | src/index.ts:123 | Absent arguments forward no query and the empty parameter object |
| Dispatch.FlagMatchesText | src/index.ts:136-150 | The error flag can be read from the text: it is set exactly when the text starts with "Neo4j error: " |

## Left out

- dotenv loading and resolving `.env` next to the script (src/index.ts:12-15, src/env.ts:9-14): filesystem I/O. The environment is the map after loading.
- The `Server`, the stdio transport, the tool listing and `run` (src/index.ts:53-62, 95-118, 167-171): transport plumbing inside a library that is not part of this model.
- Driver construction, `session.run` and `session.close` (src/index.ts:65-68, 158-164): an asynchronous network client. The executor is a parameter returning `Completed(records)` or `Threw(thrown)`, so releasing the session on failure is not modelled.
- SIGINT cleanup and the side effects of `process.exit` (src/index.ts:79-88): process lifecycle. Exits are outcome values, and stderr output is a message field.
- `JSON.stringify`, `String` of finite floating-point numbers, and the text of `McpError` messages: library behaviour. They are `Foreign` parameters. Published versions of the protocol library prefix the message with "MCP error -32601: ".
- A `JSON.stringify` that throws (cyclic values, BigInt) inside `formatResults`: `Foreign.json` is total, so this path to an error envelope is not modelled.
- `neo4j.isNode`, `isRelationship` and `isPath`: these are datatype constructors. Driver integers, temporal and spatial values all fall into `Object` and render through JSON. Scalars cover strings, booleans and numbers, NaN and the infinities included; BigInt, symbols and functions are not modelled.
- Format.OutputLines: stated only for keys and rendered values without line breaks. Otherwise the physical line count is larger, and ResultsLayout gives the exact pushed lines for every input.

## Findings

| source | as written | input that shows it | evidently intended | confidence | as-written member | corrected member |
|---|---|---|---|---|---|---|
| src/index.ts:20-23 | Destructured fields that are missing are `undefined`. Assigning them to `process.env` stores the text "undefined", which is truthy, so the check at lines 27-30 passes | `NEO4J_CONNECTION=bolt://db,neo4j` starts a driver with password "undefined" | A missing field leaves its variable unset, and the missing-variable check reports it | not executed; relies on Node.js converting every value assigned to `process.env` to a string | Config.ShortConnectionCounterexample | Config.ShortConnectionReported |
