/** The values a Neo4j query can return, as the formatter distinguishes them,
    and the library renderings the formatter delegates to. */
module Values {

  /** A JavaScript number: a finite value, or one of the three non-finite
      values a Cypher float can also produce. */
  datatype Number = Finite(value: real) | NaN | Infinity | NegativeInfinity

  /** JavaScript primitives that reach `String(value)`. */
  datatype Prim = Str(text: string) | Bool(flag: bool) | Num(number: Number)

  /** Property maps and generic objects, as ordered (name, value) entries. */
  type Props = seq<(string, Value)>

  datatype NodeData = NodeData(identity: int, labels: seq<string>, properties: Props)

  datatype RelData = RelData(identity: int, start: int, end: int, relType: string, properties: Props)

  /** One hop of a path: start node, relationship, end node. */
  datatype Segment = Segment(start: NodeData, relationship: RelData, end: NodeData)

  /** A field value of a result record. `Null` stands for both `null` and
      `undefined`; `Object` is any other non-array object, including driver
      `Integer`s, temporal and spatial values, and plain maps. */
  datatype Value =
    | Null
    | Scalar(prim: Prim)
    | Node(node: NodeData)
    | Relationship(rel: RelData)
    | Path(start: NodeData, segments: seq<Segment>, end: NodeData)
    | List(items: seq<Value>)
    | Object(entries: Props)

  /** A result row: its keys in declaration order, each with its value. */
  datatype Record = Record(fields: seq<(string, Value)>)

  /** Behaviour of code outside this model: `JSON.stringify` of an object,
      `String` of a finite floating-point number, and the message the protocol
      library's `McpError` builds from an error code and a text. */
  datatype Foreign = Foreign(
    json: Props -> string,
    number: real -> string,
    mcpMessage: (int, string) -> string)
}
