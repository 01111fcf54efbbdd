/** The result serialiser: `formatValue` renders one field value and
    `formatResults` lays out a whole result set as text. */
module Format {
  import opened Wrappers
  import opened Strings
  import opened Values

  const NoResults := "No results found."
  const ResultsHeader := "Results:"

  /** `String(value)` of a primitive: a string is itself, a boolean is
      `true` or `false`, and the non-finite numbers have fixed names. */
  function ShowPrim(f: Foreign, p: Prim): (r: string)
    ensures p.Str? ==> r == p.text
    ensures p.Bool? ==> (r == "true" <==> p.flag) && (r == "false" <==> !p.flag)
    ensures p.Num? && p.number.Finite? ==> r == f.number(p.number.value)
    ensures p.Num? && !p.number.Finite? ==>
      r == (match p.number case NaN => "NaN" case Infinity => "Infinity" case _ => "-Infinity")
  {
    match p
    case Str(s) => s
    case Bool(b) => if b then "true" else "false"
    case Num(Finite(x)) => f.number(x)
    case Num(NaN) => "NaN"
    case Num(Infinity) => "Infinity"
    case Num(NegativeInfinity) => "-Infinity"
  }

  /** `formatValue`: total over every value; graph values get their own
      layout, lists recurse element-wise, other objects go through JSON. */
  function FormatValue(f: Foreign, v: Value): string
    decreases v
  {
    match v
    case Null => "null"
    case Scalar(p) => ShowPrim(f, p)
    case Node(n) =>
      "Node(id=" + IntToString(n.identity) + ", labels=[" + Join(n.labels, ", ")
      + "], properties=" + f.json(n.properties) + ")"
    case Relationship(r) =>
      "Relationship(id=" + IntToString(r.identity) + ", type=" + r.relType
      + ", properties=" + f.json(r.properties) + ")"
    case Path(_, segments, _) =>
      "Path(length=" + NatToString(|segments|) + ", nodes=" + NatToString(|segments| + 1) + ")"
    case List(items) => "[" + Join(FormatItems(f, items), ", ") + "]"
    case Object(entries) => f.json(entries)
  }

  /** Each kind of value has its own shape: `null` for an absent value,
      `String(v)` for a primitive, a `Node(`, `Relationship(` or `Path(`
      summary for graph values, brackets around a list, JSON for any other
      object. */
  lemma ValueShapes(f: Foreign, v: Value)
    ensures var r := FormatValue(f, v);
      && (v.Null? ==> r == "null")
      && (v.Scalar? ==> r == ShowPrim(f, v.prim))
      && (v.Node? ==> "Node(id=" <= r && r[|r| - 1] == ')')
      && (v.Relationship? ==> "Relationship(id=" <= r && r[|r| - 1] == ')')
      && (v.Path? ==> "Path(length=" <= r && r[|r| - 1] == ')')
      && (v.List? ==> "[" <= r && r[|r| - 1] == ']')
      && (v.Object? ==> r == f.json(v.entries))
  {
    match v
    case Node(n) =>
      Prefix7("Node(id=", IntToString(n.identity), ", labels=[", Join(n.labels, ", "),
        "], properties=", f.json(n.properties), ")");
    case Relationship(rl) =>
      Prefix7("Relationship(id=", IntToString(rl.identity), ", type=", rl.relType,
        ", properties=", f.json(rl.properties), ")");
    case Path(_, segments, _) =>
      Prefix7("Path(length=", NatToString(|segments|), ", nodes=", NatToString(|segments| + 1), ")", [], []);
    case _ =>
  }

  /** The first of seven concatenated parts is a prefix of the whole. */
  lemma Prefix7<T>(a: seq<T>, b: seq<T>, c: seq<T>, d: seq<T>, e: seq<T>, g: seq<T>, h: seq<T>)
    ensures a <= a + b + c + d + e + g + h
  {
    assert a + b + c + d + e + g + h == a + (b + c + d + e + g + h);
  }

  /** The renderings of `items`, element by element. */
  function FormatItems(f: Foreign, items: seq<Value>): (r: seq<string>)
    decreases items
    ensures |r| == |items|
    ensures forall i :: 0 <= i < |items| ==> r[i] == FormatValue(f, items[i])
  {
    if |items| == 0 then [] else [FormatValue(f, items[0])] + FormatItems(f, items[1..])
  }

  /** The line pushed for one field: `"{key}: {formatValue(value)}"`. */
  function FieldLine(f: Foreign, key: string, v: Value): string
  {
    key + ": " + FormatValue(f, v)
  }

  /** A field line reads as the key, then `": "`, then the value's rendering. */
  lemma FieldLineParts(f: Foreign, key: string, v: Value)
    ensures var r := FieldLine(f, key, v);
      && |r| == |key| + 2 + |FormatValue(f, v)|
      && r[..|key|] == key && r[|key|..|key| + 2] == ": " && r[|key| + 2..] == FormatValue(f, v)
  {
  }

  function FieldLines(f: Foreign, fields: seq<(string, Value)>): seq<string>
  {
    seq(|fields|, k requires 0 <= k < |fields| => FieldLine(f, fields[k].0, fields[k].1))
  }

  /** The header pushed for the record at 0-based position `i`. */
  function Header(i: nat): string
  {
    "\nRecord " + NatToString(i + 1) + ":"
  }

  /** The header of position `i` is `"\nRecord "`, a decimal number that
      reads back as `i + 1`, and `":"`. */
  lemma HeaderNumber(i: nat)
    ensures var r := Header(i);
      && |r| > 9 && r[..8] == "\nRecord " && r[|r| - 1] == ':'
      && IsDigits(r[8..|r| - 1]) && ParseNat(r[8..|r| - 1]) == i + 1
  {
    var r := Header(i);
    assert r[8..|r| - 1] == NatToString(i + 1);
    ParseNatToString(i + 1);
  }

  /** The lines pushed for `rs`, whose first record sits at position `first`. */
  function Blocks(f: Foreign, rs: seq<Record>, first: nat): seq<string>
  {
    if |rs| == 0 then []
    else [Header(first)] + FieldLines(f, rs[0].fields) + Blocks(f, rs[1..], first + 1)
  }

  /** Every line `formatResults` pushes for a non-empty result set, in order. */
  function Pushed(f: Foreign, rs: seq<Record>): seq<string>
  {
    [ResultsHeader] + Blocks(f, rs, 0)
  }

  /** `formatResults` on a present record array. */
  function FormatRecords(f: Foreign, rs: seq<Record>): (r: string)
    ensures r == NoResults <==> |rs| == 0
    ensures |rs| > 0 ==> ResultsHeader <= r
  {
    if |rs| == 0 then NoResults
    else
      var r := Join(Pushed(f, rs), "\n");
      assert r[..|ResultsHeader|] == ResultsHeader;
      assert r[2] != NoResults[2];
      r
  }

  /** `formatResults`, where `None` is an absent record array. */
  function FormatResults(f: Foreign, records: Option<seq<Record>>): (r: string)
    ensures r == NoResults <==> records == None || records == Some([])
    ensures records.Some? && |records.value| > 0 ==> ResultsHeader <= r
  {
    match records
    case None => NoResults
    case Some(rs) => FormatRecords(f, rs)
  }

  /** Number of lines the records push: a header plus one per field, each. */
  function Width(rs: seq<Record>): nat
  {
    if |rs| == 0 then 0 else 1 + |rs[0].fields| + Width(rs[1..])
  }

  lemma {:induction false} WidthAppend(a: seq<Record>, b: seq<Record>)
    ensures Width(a + b) == Width(a) + Width(b)
  {
    if |a| > 0 {
      assert (a + b)[1..] == a[1..] + b;
      WidthAppend(a[1..], b);
    } else {
      assert a + b == b;
    }
  }

  lemma {:induction false} BlocksLength(f: Foreign, rs: seq<Record>, first: nat)
    ensures |Blocks(f, rs, first)| == Width(rs)
  {
    if |rs| > 0 {
      BlocksLength(f, rs[1..], first + 1);
    }
  }

  /** Within the blocks of `rs`, record `i` starts at offset `Width(rs[..i])`
      with its header, and its `k`-th field line follows at `k + 1` after it. */
  lemma {:induction false} BlocksLayout(f: Foreign, rs: seq<Record>, first: nat, i: nat)
    requires i < |rs|
    ensures Width(rs[..i]) + 1 + |rs[i].fields| <= |Blocks(f, rs, first)|
    ensures Blocks(f, rs, first)[Width(rs[..i])] == Header(first + i)
    ensures forall k :: 0 <= k < |rs[i].fields| ==>
      Blocks(f, rs, first)[Width(rs[..i]) + 1 + k] == FieldLine(f, rs[i].fields[k].0, rs[i].fields[k].1)
  {
    var b := Blocks(f, rs, first);
    BlocksLength(f, rs, first);
    if i == 0 {
      assert rs[..0] == [];
    } else {
      var tail := rs[1..];
      BlocksLayout(f, tail, first + 1, i - 1);
      assert rs[..i] == [rs[0]] + tail[..i - 1];
      WidthAppend([rs[0]], tail[..i - 1]);
      assert Width([rs[0]]) == 1 + |rs[0].fields|;
      assert tail[i - 1] == rs[i];
      var head := [Header(first)] + FieldLines(f, rs[0].fields);
      assert b == head + Blocks(f, tail, first + 1);
      assert |head| == 1 + |rs[0].fields|;
    }
  }

  /** The output of a non-empty result set is its pushed lines joined by
      newlines: `"Results:"` first, then for the record at 0-based position
      `i` the header `"\nRecord {i+1}:"` at index `1 + Width(rs[..i])`,
      immediately followed by one `"{key}: {value}"` line per field in the
      record's key order; nothing else is pushed. */
  lemma ResultsLayout(f: Foreign, rs: seq<Record>, i: nat)
    requires i < |rs|
    ensures FormatRecords(f, rs) == Join(Pushed(f, rs), "\n")
    ensures |Pushed(f, rs)| == 1 + Width(rs)
    ensures Pushed(f, rs)[0] == ResultsHeader
    ensures 1 + Width(rs[..i]) + |rs[i].fields| < |Pushed(f, rs)|
    ensures Pushed(f, rs)[1 + Width(rs[..i])] == "\nRecord " + NatToString(i + 1) + ":"
    ensures forall k :: 0 <= k < |rs[i].fields| ==>
      Pushed(f, rs)[1 + Width(rs[..i]) + 1 + k] == rs[i].fields[k].0 + ": " + FormatValue(f, rs[i].fields[k].1)
  {
    BlocksLength(f, rs, 0);
    BlocksLayout(f, rs, 0, i);
  }

  /** The lines of the output as a reader sees them: each record's header
      contributes a blank line and a `"Record {n}:"` line. */
  function PhysicalBlocks(f: Foreign, rs: seq<Record>, first: nat): seq<string>
  {
    if |rs| == 0 then [] else
      ["", "Record " + NatToString(first + 1) + ":"] + FieldLines(f, rs[0].fields)
      + PhysicalBlocks(f, rs[1..], first + 1)
  }

  function Physical(f: Foreign, rs: seq<Record>): seq<string>
  {
    [ResultsHeader] + PhysicalBlocks(f, rs, 0)
  }

  /** No key and no rendered value of the records contains a line break. */
  predicate SingleLineFields(f: Foreign, rs: seq<Record>)
  {
    forall i, k :: 0 <= i < |rs| && 0 <= k < |rs[i].fields| ==>
      '\n' !in rs[i].fields[k].0 && '\n' !in FormatValue(f, rs[i].fields[k].1)
  }

  /** Replacing a leading `"\n" + h` by the two parts `""`, `h` does not
      change the joined text. */
  lemma HeadSplitsInTwo(h: string, t: seq<string>)
    ensures Join(["\n" + h] + t, "\n") == Join(["", h] + t, "\n")
  {
    var two := ["", h] + t;
    JoinPrefixFirst("\n", h, t, "\n");
    assert two[1..] == [h] + t;
    assert Join(two, "\n") == "" + "\n" + Join([h] + t, "\n");
  }

  /** The same replacement after non-empty leading parts, regrouped so
      that the parts after the header start a new tail. */
  lemma HeaderSplitsInTwo(p: seq<string>, h: string, fl: seq<string>, rest: seq<string>)
    requires |p| > 0
    ensures Join(p + (["\n" + h] + fl + rest), "\n") == Join(p + ["", h] + fl + rest, "\n")
  {
    var t := fl + rest;
    assert ["\n" + h] + fl + rest == ["\n" + h] + t;
    assert p + ["", h] + fl + rest == p + (["", h] + t);
    JoinAppend(p, ["\n" + h] + t, "\n");
    JoinAppend(p, ["", h] + t, "\n");
    HeadSplitsInTwo(h, t);
  }

  lemma {:induction false} BlocksJoin(f: Foreign, p: seq<string>, rs: seq<Record>, first: nat)
    requires |p| > 0
    decreases rs
    ensures Join(p + Blocks(f, rs, first), "\n") == Join(p + PhysicalBlocks(f, rs, first), "\n")
  {
    if |rs| > 0 {
      var h := "Record " + NatToString(first + 1) + ":";
      var fl := FieldLines(f, rs[0].fields);
      assert Header(first) == "\n" + h;
      HeaderSplitsInTwo(p, h, fl, Blocks(f, rs[1..], first + 1));
      BlocksJoin(f, p + ["", h] + fl, rs[1..], first + 1);
      Regroup(p, ["", h], fl, PhysicalBlocks(f, rs[1..], first + 1));
    }
  }

  lemma {:induction false} PhysicalBlocksShape(f: Foreign, rs: seq<Record>, first: nat)
    requires SingleLineFields(f, rs)
    ensures |PhysicalBlocks(f, rs, first)| == |rs| + Width(rs)
    ensures forall j :: 0 <= j < |PhysicalBlocks(f, rs, first)| ==> '\n' !in PhysicalBlocks(f, rs, first)[j]
  {
    if |rs| > 0 {
      var n := NatToString(first + 1);
      DigitsSingleLine(n);
      var fl := FieldLines(f, rs[0].fields);
      forall k | 0 <= k < |fl|
        ensures '\n' !in fl[k]
      {
        assert fl[k] == FieldLine(f, rs[0].fields[k].0, rs[0].fields[k].1);
      }
      assert SingleLineFields(f, rs[1..]) by {
        forall i, k | 0 <= i < |rs[1..]| && 0 <= k < |rs[1..][i].fields|
          ensures '\n' !in rs[1..][i].fields[k].0 && '\n' !in FormatValue(f, rs[1..][i].fields[k].1)
        {
          assert rs[1..][i] == rs[i + 1];
        }
      }
      PhysicalBlocksShape(f, rs[1..], first + 1);
    }
  }

  lemma DigitsSingleLine(s: string)
    requires IsDigits(s)
    ensures '\n' !in s
  {
  }

  /** Splitting a non-empty output at line breaks gives exactly the reader's
      lines, `1 + Σ(2 + |keys|)` of them, provided keys and rendered values
      are single-line. */
  lemma OutputLines(f: Foreign, rs: seq<Record>)
    requires |rs| > 0
    requires SingleLineFields(f, rs)
    ensures Split(FormatRecords(f, rs), '\n') == Physical(f, rs)
    ensures |Split(FormatRecords(f, rs), '\n')| == 1 + |rs| + Width(rs)
  {
    BlocksJoin(f, [ResultsHeader], rs, 0);
    PhysicalBlocksShape(f, rs, 0);
    var ph := Physical(f, rs);
    forall j | 0 <= j < |ph|
      ensures '\n' !in ph[j]
    {
      if j > 0 {
        assert ph[j] == PhysicalBlocks(f, rs, 0)[j - 1];
      }
    }
    SplitJoin(ph, '\n');
  }

  /** A reference definition of a list's text that emits the elements one
      after another, without joining. */
  function ListText(f: Foreign, items: seq<Value>): string
  {
    if |items| == 0 then "[]" else "[" + FormatValue(f, items[0]) + ListTail(f, items[1..])
  }

  function ListTail(f: Foreign, items: seq<Value>): string
  {
    if |items| == 0 then "]" else ", " + FormatValue(f, items[0]) + ListTail(f, items[1..])
  }

  lemma {:induction false} JoinTail(first: string, rest: seq<string>, f: Foreign, items: seq<Value>)
    requires rest == FormatItems(f, items)
    decreases items
    ensures Join([first] + rest, ", ") + "]" == first + ListTail(f, items)
  {
    if |items| > 0 {
      var tail := FormatItems(f, items[1..]);
      JoinCons(first, rest, ", ");
      JoinTail(rest[0], tail, f, items[1..]);
      Regroup(first, ", ", Join(rest, ", "), "]");
      Regroup(first, ", ", rest[0], ListTail(f, items[1..]));
    }
  }

  /** A list renders as `[` + its elements' renderings joined by `", "` +
      `]`, element by element in order; in particular `[]` for no elements. */
  lemma ListFormat(f: Foreign, items: seq<Value>)
    ensures FormatValue(f, List(items)) == ListText(f, items)
    ensures items == [] ==> FormatValue(f, List(items)) == "[]"
  {
    if |items| > 0 {
      var fs := FormatItems(f, items);
      assert fs == [fs[0]] + FormatItems(f, items[1..]);
      JoinTail(fs[0], FormatItems(f, items[1..]), f, items[1..]);
      assert Join(fs, ", ") + "]" == fs[0] + ListTail(f, items[1..]);
      assert FormatValue(f, List(items)) == "[" + (Join(fs, ", ") + "]");
    }
  }

  /** Two decimal renderings followed by the same non-digit separator agree
      only if they are the same rendering. */
  lemma DigitsPrefixUnique(a: string, b: string, x: string, y: string)
    requires IsDigits(a) && IsDigits(b)
    requires |x| > 0 && |y| > 0 && x[0] == ',' && y[0] == ','
    requires a + x == b + y
    ensures a == b
  {
    var s := a + x;
    assert s[|a|] == ',';
    assert s[|b|] == (b + y)[|b|] == ',';
    assert forall j :: 0 <= j < |a| ==> s[j] == a[j] && s[j] != ',';
    assert forall j :: 0 <= j < |b| ==> s[j] == (b + y)[j] == b[j] && s[j] != ',';
    assert |a| == |b|;
    assert a == s[..|a|];
    assert b == (b + y)[..|b|];
  }

  lemma DropCommonPrefix(p: string, u: string, v: string)
    requires p + u == p + v
    ensures u == v
  {
    assert u == (p + u)[|p|..];
    assert v == (p + v)[|p|..];
  }

  /** For a fixed key, two field lines are equal exactly when the values
      render alike. */
  lemma FieldLineValues(f: Foreign, key: string, v: Value, w: Value)
    ensures FieldLine(f, key, v) == FieldLine(f, key, w) <==> FormatValue(f, v) == FormatValue(f, w)
  {
    if FieldLine(f, key, v) == FieldLine(f, key, w) {
      DropCommonPrefix(key + ": ", FormatValue(f, v), FormatValue(f, w));
    }
  }

  /** Seven concatenated parts, regrouped after the second. */
  lemma Regroup7<T>(a: seq<T>, b: seq<T>, c: seq<T>, d: seq<T>, e: seq<T>, g: seq<T>, h: seq<T>)
    ensures a + b + c + d + e + g + h == a + (b + (c + d + e + g + h))
  {
  }

  /** The identity field of a node's text is delimited by the comma after
      it, so two nodes with non-negative identities that render alike have
      the same identity, whatever their labels, properties and renderers. */
  lemma NodeIdentity(f: Foreign, g: Foreign, n: NodeData, m: NodeData)
    ensures n.identity >= 0 && m.identity >= 0 && FormatValue(f, Node(n)) == FormatValue(g, Node(m))
      ==> n.identity == m.identity
  {
    if n.identity >= 0 && m.identity >= 0 && FormatValue(f, Node(n)) == FormatValue(g, Node(m)) {
      var dn, dm := NatToString(n.identity), NatToString(m.identity);
      var x := ", labels=[" + Join(n.labels, ", ") + "], properties=" + f.json(n.properties) + ")";
      var y := ", labels=[" + Join(m.labels, ", ") + "], properties=" + g.json(m.properties) + ")";
      Regroup7("Node(id=", dn, ", labels=[", Join(n.labels, ", "), "], properties=", f.json(n.properties), ")");
      Regroup7("Node(id=", dm, ", labels=[", Join(m.labels, ", "), "], properties=", g.json(m.properties), ")");
      DropCommonPrefix("Node(id=", dn + x, dm + y);
      DigitsPrefixUnique(dn, dm, x, y);
      NatToStringInjective(n.identity, m.identity);
    }
  }

  /** Likewise for relationships: the identity field is delimited by the
      comma after it. */
  lemma RelationshipIdentity(f: Foreign, g: Foreign, r: RelData, q: RelData)
    ensures r.identity >= 0 && q.identity >= 0
      && FormatValue(f, Relationship(r)) == FormatValue(g, Relationship(q))
      ==> r.identity == q.identity
  {
    if r.identity >= 0 && q.identity >= 0 && FormatValue(f, Relationship(r)) == FormatValue(g, Relationship(q)) {
      var dr, dq := NatToString(r.identity), NatToString(q.identity);
      var x := ", type=" + r.relType + ", properties=" + f.json(r.properties) + ")";
      var y := ", type=" + q.relType + ", properties=" + g.json(q.properties) + ")";
      Regroup7("Relationship(id=", dr, ", type=", r.relType, ", properties=", f.json(r.properties), ")");
      Regroup7("Relationship(id=", dq, ", type=", q.relType, ", properties=", g.json(q.properties), ")");
      DropCommonPrefix("Relationship(id=", dr + x, dq + y);
      DigitsPrefixUnique(dr, dq, x, y);
      NatToStringInjective(r.identity, q.identity);
    }
  }

  /** The length field of a summary text is delimited by the comma after it. */
  lemma SummaryFieldsUnique(dn: string, en: string, dm: string, em: string)
    requires IsDigits(dn) && IsDigits(dm)
    requires "Path(length=" + dn + ", nodes=" + en + ")" == "Path(length=" + dm + ", nodes=" + em + ")"
    ensures dn == dm
  {
    var pre := "Path(length=";
    var x := ", nodes=" + en + ")";
    var y := ", nodes=" + em + ")";
    assert pre + dn + ", nodes=" + en + ")" == pre + (dn + x);
    assert pre + dm + ", nodes=" + em + ")" == pre + (dm + y);
    DropCommonPrefix(pre, dn + x, dm + y);
    DigitsPrefixUnique(dn, dm, x, y);
  }

  /** The summary text of a path determines its segment count. */
  lemma SummaryDeterminesLength(n: nat, m: nat)
    requires "Path(length=" + NatToString(n) + ", nodes=" + NatToString(n + 1) + ")"
          == "Path(length=" + NatToString(m) + ", nodes=" + NatToString(m + 1) + ")"
    ensures n == m
  {
    SummaryFieldsUnique(NatToString(n), NatToString(n + 1), NatToString(m), NatToString(m + 1));
    NatToStringInjective(n, m);
  }

  /** A path renders as a length summary only: two paths render alike
      exactly when they have the same number of segments, whatever their
      nodes and relationships. */
  lemma PathSummary(f: Foreign, g: Foreign, a: NodeData, s: seq<Segment>, b: NodeData,
                    a': NodeData, s': seq<Segment>, b': NodeData)
    ensures FormatValue(f, Path(a, s, b)) == FormatValue(g, Path(a', s', b')) <==> |s| == |s'|
  {
    if FormatValue(f, Path(a, s, b)) == FormatValue(g, Path(a', s', b')) {
      SummaryDeterminesLength(|s|, |s'|);
    }
  }

  /** Paths with no segment and with two segments, rendered. */
  lemma PathExamples(f: Foreign, a: NodeData, s: seq<Segment>, b: NodeData)
    ensures |s| == 0 ==> FormatValue(f, Path(a, s, b)) == "Path(length=0, nodes=1)"
    ensures |s| == 2 ==> FormatValue(f, Path(a, s, b)) == "Path(length=2, nodes=3)"
  {
    assert NatToString(0) == "0";
    assert NatToString(1) == "1";
    assert NatToString(2) == "2";
    assert NatToString(3) == "3";
  }

  /** The node of the form `(:Person {name: "Al"})` with identity 7, rendered. */
  lemma NodeExample(f: Foreign, props: Props)
    requires f.json(props) == "{\"name\":\"Al\"}"
    ensures FormatValue(f, Node(NodeData(7, ["Person"], props)))
      == "Node(id=7, labels=[Person], properties={\"name\":\"Al\"})"
  {
    assert IntToString(7) == "7";
    assert Join(["Person"], ", ") == "Person";
    NodeExampleText();
  }

  lemma NodeExampleText()
    ensures "Node(id=" + "7" + ", labels=[" + "Person" + "], properties=" + "{\"name\":\"Al\"}" + ")"
      == "Node(id=7, labels=[Person], properties={\"name\":\"Al\"})"
  {
    assert "Node(id=" + "7" == "Node(id=7";
    assert "Node(id=7" + ", labels=[" == "Node(id=7, labels=[";
    assert "Node(id=7, labels=[" + "Person" == "Node(id=7, labels=[Person";
    assert "Node(id=7, labels=[Person" + "], properties=" == "Node(id=7, labels=[Person], properties=";
    assert "Node(id=7, labels=[Person], properties=" + "{\"name\":\"Al\"}"
      == "Node(id=7, labels=[Person], properties={\"name\":\"Al\"}";
  }

  /** A `KNOWS` relationship with identity 3 and no properties, rendered. */
  lemma RelationshipExample(f: Foreign)
    requires f.json([]) == "{}"
    ensures FormatValue(f, Relationship(RelData(3, 7, 8, "KNOWS", [])))
      == "Relationship(id=3, type=KNOWS, properties={})"
  {
    assert IntToString(3) == "3";
    RelationshipExampleText();
  }

  lemma RelationshipExampleText()
    ensures "Relationship(id=" + "3" + ", type=" + "KNOWS" + ", properties=" + "{}" + ")"
      == "Relationship(id=3, type=KNOWS, properties={})"
  {
  }

  /** The lines pushed for the record `{a: 1, b: "x", c: null}`. */
  lemma RecordExampleLines(f: Foreign)
    requires f.number(1.0) == "1"
    ensures Pushed(f, [Record([("a", Scalar(Num(Finite(1.0)))), ("b", Scalar(Str("x"))), ("c", Null)])])
      == ["Results:", "\nRecord 1:", "a: 1", "b: x", "c: null"]
  {
    var rs := [Record([("a", Scalar(Num(Finite(1.0)))), ("b", Scalar(Str("x"))), ("c", Null)])];
    assert NatToString(1) == "1";
    assert Header(0) == "\nRecord 1:";
    assert FieldLine(f, "a", Scalar(Num(Finite(1.0)))) == "a: 1";
    assert FieldLine(f, "b", Scalar(Str("x"))) == "b: x";
    assert FieldLine(f, "c", Null) == "c: null";
    var fl := FieldLines(f, rs[0].fields);
    assert fl == ["a: 1", "b: x", "c: null"];
    assert Blocks(f, rs[1..], 1) == [];
  }

  /** Five lines joined by a separator. */
  lemma JoinFive(a: string, b: string, c: string, d: string, e: string, sep: string)
    ensures Join([a, b, c, d, e], sep) == a + (sep + (b + (sep + (c + (sep + (d + (sep + e)))))))
  {
    JoinCons(a, [b, c, d, e], sep);
    JoinCons(b, [c, d, e], sep);
    JoinCons(c, [d, e], sep);
    JoinCons(d, [e], sep);
  }

  /** A single record `{a: 1, b: "x", c: null}`, rendered in full. */
  lemma RecordExample(f: Foreign)
    requires f.number(1.0) == "1"
    ensures FormatRecords(f, [Record([("a", Scalar(Num(Finite(1.0)))), ("b", Scalar(Str("x"))), ("c", Null)])])
      == "Results:\n\nRecord 1:\na: 1\nb: x\nc: null"
  {
    RecordExampleLines(f);
    JoinFive("Results:", "\nRecord 1:", "a: 1", "b: x", "c: null", "\n");
    RecordExampleText();
  }

  lemma RecordExampleText()
    ensures "Results:" + ("\n" + ("\nRecord 1:" + ("\n" + ("a: 1" + ("\n" + ("b: x" + ("\n" + "c: null")))))))
      == "Results:\n\nRecord 1:\na: 1\nb: x\nc: null"
  {
  }
}
