/** The tool-call handler of src/index.ts: it routes on the tool name,
    forwards `query` and `parameters` to the query executor, and turns the
    outcome into a response envelope. Every thrown `Error`, the unknown-tool
    error included, becomes an envelope flagged `isError`; only throwables
    that are not `Error`s are thrown on to the transport. */
module Dispatch {
  import opened Wrappers
  import opened Values
  import opened Format

  /** The one tool the server offers. */
  const ToolName := "neo4j-query"

  /** The JSON-RPC "method not found" code the unknown-tool error carries. */
  const MethodNotFound := -32601

  const ErrorPrefix := "Neo4j error: "

  /** The arguments object of a call. */
  type Arguments = map<string, Value>

  /** What is handed to the executor: `args.query` as it is (`None` when
      absent) and `args.parameters`, defaulting to `{}` when absent. */
  datatype QueryRequest = QueryRequest(query: Option<Value>, parameters: Value)

  /** What a JavaScript `throw` carries: an `Error` with its message, or any
      other value. */
  datatype Thrown = Error(message: string) | NonError(payload: Value)

  /** The executor's outcome: the records of the result, or what it threw. */
  datatype Executed = Completed(records: seq<Record>) | Threw(thrown: Thrown)

  /** A response with one text block; `isError` false stands for the flag
      being absent. */
  datatype Envelope = Envelope(text: string, isError: bool)

  /** The handler either returns an envelope or throws on to the transport. */
  datatype Reply = Replied(envelope: Envelope) | Propagated(thrown: Thrown)

  /** One call as seen from outside: the request given to the executor, if
      it was called, and the handler's reply. */
  datatype Handled = Handled(forwarded: Option<QueryRequest>, reply: Reply)

  /** The request built from the call's arguments, `{}` standing in for
      absent arguments. */
  function RequestOf(arguments: Option<Arguments>): (r: QueryRequest)
    ensures r.query.Some? <==> arguments.Some? && "query" in arguments.value
    ensures r.query.Some? ==> r.query.value == arguments.value["query"]
    ensures arguments.Some? && "parameters" in arguments.value ==>
      r.parameters == arguments.value["parameters"]
    ensures !(arguments.Some? && "parameters" in arguments.value) ==> r.parameters == Object([])
  {
    var args := match arguments case None => map[] case Some(a) => a;
    QueryRequest(
      if "query" in args then Some(args["query"]) else None,
      if "parameters" in args then args["parameters"] else Object([]))
  }

  /** The `catch` block. */
  function Catch(t: Thrown): (r: Reply)
    ensures r.Propagated? <==> t.NonError?
    ensures t.Error? ==> r == Replied(Envelope(ErrorPrefix + t.message, true))
  {
    match t
    case Error(m) => Replied(Envelope(ErrorPrefix + m, true))
    case NonError(_) => Propagated(t)
  }

  /** The `CallToolRequestSchema` handler. `execute` is the query executor,
      whose session handling is outside this model. */
  function HandleCall(f: Foreign, name: string, arguments: Option<Arguments>,
                      execute: QueryRequest -> Executed): (h: Handled)
    ensures h.forwarded.Some? <==> name == ToolName
    ensures h.forwarded.Some? ==>
      && h.forwarded.value.query == (if arguments.Some? && "query" in arguments.value
                                     then Some(arguments.value["query"]) else None)
      && h.forwarded.value.parameters == (if arguments.Some? && "parameters" in arguments.value
                                          then arguments.value["parameters"] else Object([]))
    ensures h.reply.Propagated? ==>
      name == ToolName && execute(RequestOf(arguments)) == Threw(h.reply.thrown) && h.reply.thrown.NonError?
    ensures h.reply.Replied? && !h.reply.envelope.isError ==>
      name == ToolName && execute(RequestOf(arguments)).Completed?
      && h.reply.envelope.text == FormatRecords(f, execute(RequestOf(arguments)).records)
  {
    if name == ToolName then
      var request := RequestOf(arguments);
      var reply := match execute(request)
        case Completed(rs) => Replied(Envelope(FormatResults(f, Some(rs)), false))
        case Threw(t) => Catch(t);
      Handled(Some(request), reply)
    else
      Handled(None, Catch(Error(f.mcpMessage(MethodNotFound, "Unknown tool: " + name))))
  }

  /** The reply is an error envelope exactly when the tool name is unknown
      or the executor threw an `Error`; the text then carries its message. */
  lemma ErrorEnvelope(f: Foreign, name: string, arguments: Option<Arguments>,
                      execute: QueryRequest -> Executed)
    ensures var h := HandleCall(f, name, arguments, execute);
      (h.reply.Replied? && h.reply.envelope.isError)
      <==> (name != ToolName || (execute(RequestOf(arguments)).Threw?
                                 && execute(RequestOf(arguments)).thrown.Error?))
    ensures name == ToolName && execute(RequestOf(arguments)).Threw?
            && execute(RequestOf(arguments)).thrown.Error? ==>
      HandleCall(f, name, arguments, execute).reply
        == Replied(Envelope(ErrorPrefix + execute(RequestOf(arguments)).thrown.message, true))
  {
  }

  /** An unknown tool name, however close to the real one, never reaches
      the executor and is answered with an error envelope, not thrown. */
  lemma UnknownTool(f: Foreign, name: string, arguments: Option<Arguments>,
                    execute: QueryRequest -> Executed)
    requires name != ToolName
    ensures HandleCall(f, name, arguments, execute)
      == Handled(None, Replied(Envelope(
           ErrorPrefix + f.mcpMessage(MethodNotFound, "Unknown tool: " + name), true)))
  {
  }

  /** A successful query yields one text block with the formatted records and
      no error flag; no records yields "No results found.". */
  lemma SuccessEnvelope(f: Foreign, arguments: Option<Arguments>, execute: QueryRequest -> Executed)
    requires execute(RequestOf(arguments)).Completed?
    ensures HandleCall(f, ToolName, arguments, execute).reply
      == Replied(Envelope(FormatRecords(f, execute(RequestOf(arguments)).records), false))
    ensures execute(RequestOf(arguments)).records == [] ==>
      HandleCall(f, ToolName, arguments, execute).reply.envelope.text == NoResults
  {
  }

  /** Absent arguments are read as `{}`: no query and empty parameters. */
  lemma AbsentArguments(f: Foreign, execute: QueryRequest -> Executed)
    ensures HandleCall(f, ToolName, None, execute).forwarded == Some(QueryRequest(None, Object([])))
  {
  }

  /** The error flag can be read off the text: error texts start with
      "Neo4j error: ", which no formatted result does. */
  lemma FlagMatchesText(f: Foreign, name: string, arguments: Option<Arguments>,
                        execute: QueryRequest -> Executed)
    requires HandleCall(f, name, arguments, execute).reply.Replied?
    ensures var e := HandleCall(f, name, arguments, execute).reply.envelope;
      e.isError <==> ErrorPrefix <= e.text
  {
    var e := HandleCall(f, name, arguments, execute).reply.envelope;
    if !e.isError {
      var rs := execute(RequestOf(arguments)).records;
      if rs == [] {
        assert e.text == NoResults;
        assert e.text[1] != ErrorPrefix[1];
      } else {
        assert ResultsHeader <= e.text;
        assert e.text[0] != ErrorPrefix[0];
      }
    }
  }
}
