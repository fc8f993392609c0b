/**
  The section classifier: walks the top-level nodes of a document and groups them into operations,
  one per `##`/`###` heading, filling each operation's URI example, attribute table, example request
  and example response from the nodes that follow, as the marker paragraphs direct.
*/
module Sections {
  import opened Wrappers
  import opened Text
  import opened Failures
  import opened Markdown

  /** One row of a "Supported attributes" table; the cells are read by position. */
  datatype Attribute = Attribute(name: string, typ: Option<string>, required: Option<string>, description: Option<string>)

  /**
    One documented API action. A field stays `None` until its content is found. An attribute table
    without named rows is stored as `Some([])`, standing for the source's `""`: it is not `None`, so
    it blocks later tables, and it is falsy, so it yields no parameters.
  */
  datatype Operation = Operation(
    title: string,
    uri: Option<string>,
    attribute: Option<seq<Attribute>>,
    exampleRequest: Option<string>,
    exampleResponse: Option<string>)

  /** What the next table or fence is taken for (the source's `next_kind`). */
  datatype Expect = ExpectUri | ExpectAttribute | ExpectRequest | ExpectResponse

  /** `operation and operation.uri`: an operation is kept only with a non-empty URI example. */
  predicate Emittable(op: Operation) {
    op.uri.Some? && op.uri.value != []
  }

  predicate AllEmittable(ops: seq<Operation>) {
    forall i :: 0 <= i < |ops| ==> Emittable(ops[i])
  }

  // ----- Attribute tables -----

  /** A row whose first cell has some text (possibly whitespace); other rows are skipped. */
  predicate Named(row: Row) {
    |row| > 0 && FindFirstText(row[0]).Some?
  }

  /** A row the source can read without an index error. */
  predicate WellFormedRow(row: Row) {
    |row| > 0 && (Named(row) ==> |row| >= 4)
  }

  function RowAttribute(row: Row): Outcome<Option<Attribute>> {
    if |row| == 0 then Err(MalformedRow)
    else
      match FindFirstText(row[0])
      case None => Ok(None)
      case Some(name) =>
        if |row| < 4 then Err(MalformedRow)
        else Ok(Some(Attribute(name, FindFirstText(row[1]), FindFirstText(row[2]), FindFirstText(row[3]))))
  }

  /** The attributes of the body rows in row order; the first unreadable row aborts. */
  function RowsAttributes(rows: seq<Row>): Outcome<seq<Attribute>> {
    if rows == [] then Ok([])
    else
      match RowAttribute(rows[0])
      case Err(e) => Err(e)
      case Ok(a) => Prepend(if a.Some? then [a.value] else [], RowsAttributes(rows[1..]))
  }

  /** `parse_attribute`: the table's body section is its second child, which must exist. */
  function TableAttributes(table: Node): Outcome<seq<Attribute>>
    requires table.Table?
  {
    match table.body
    case None => Err(MissingTableBody)
    case Some(rows) => RowsAttributes(rows)
  }

  method ParseAttribute(table: Node) returns (r: Outcome<seq<Attribute>>)
    requires table.Table?
    ensures r == TableAttributes(table)
  {
    if table.body.None? {
      return Err(MissingTableBody);
    }
    var rows := table.body.value;
    var attrs := [];
    var rest := rows;
    PrependNothing(RowsAttributes(rows));
    while rest != []
      invariant RowsAttributes(rows) == Prepend(attrs, RowsAttributes(rest))
      decreases |rest|
    {
      var row := rest[0];
      if |row| == 0 {
        return Err(MalformedRow);
      }
      var name := FindFirstText(row[0]);
      if name.Some? {
        if |row| < 4 {
          return Err(MalformedRow);
        }
        var attr := Attribute(name.value, FindFirstText(row[1]), FindFirstText(row[2]), FindFirstText(row[3]));
        assert RowsAttributes(rest) == Prepend([attr], RowsAttributes(rest[1..]));
        PrependTwice(attrs, [attr], RowsAttributes(rest[1..]));
        attrs := attrs + [attr];
      } else {
        assert RowsAttributes(rest) == Prepend([], RowsAttributes(rest[1..]));
        PrependNothing(RowsAttributes(rest[1..]));
      }
      rest := rest[1..];
    }
    assert attrs + [] == attrs;
    return Ok(attrs);
  }

  function NamedRows(rows: seq<Row>): (named: seq<Row>)
    ensures forall j :: 0 <= j < |named| ==> named[j] in rows && Named(named[j])
  {
    if rows == [] then []
    else (if Named(rows[0]) then [rows[0]] else []) + NamedRows(rows[1..])
  }

  /** A table is read without error exactly when every body row is well formed. */
  lemma {:induction false} AttributesReadIff(rows: seq<Row>)
    ensures RowsAttributes(rows).Ok? <==> forall i :: 0 <= i < |rows| ==> WellFormedRow(rows[i])
  {
    if rows != [] {
      AttributesReadIff(rows[1..]);
      assert forall i :: 1 <= i < |rows| ==> rows[i] == rows[1..][i - 1];
    }
  }

  /**
    A table read without error yields one attribute per row whose first cell has text, in row
    order: the j-th attribute is what the j-th such row gives.
  */
  lemma {:induction false} AttributesFollowRows(rows: seq<Row>)
    requires RowsAttributes(rows).Ok?
    ensures var attrs := RowsAttributes(rows).value;
      && |attrs| == |NamedRows(rows)|
      && forall j :: 0 <= j < |attrs| ==> RowAttribute(NamedRows(rows)[j]) == Ok(Some(attrs[j]))
  {
    if rows != [] {
      var rest := RowsAttributes(rows[1..]);
      RowsAttributesCons(rows);
      AttributesFollowRows(rows[1..]);
      if Named(rows[0]) {
        FollowsCons(RowAttribute(rows[0]).value.value, rows[0], rest.value, NamedRows(rows[1..]));
      }
    }
  }

  /** How the first row of a table read without error contributes. */
  lemma RowsAttributesCons(rows: seq<Row>)
    requires rows != [] && RowsAttributes(rows).Ok?
    ensures RowAttribute(rows[0]).Ok? && RowsAttributes(rows[1..]).Ok?
    ensures RowAttribute(rows[0]).value.Some? <==> Named(rows[0])
    ensures Named(rows[0]) ==> RowsAttributes(rows).value == [RowAttribute(rows[0]).value.value] + RowsAttributes(rows[1..]).value
    ensures Named(rows[0]) ==> NamedRows(rows) == [rows[0]] + NamedRows(rows[1..])
    ensures !Named(rows[0]) ==> RowsAttributes(rows) == RowsAttributes(rows[1..])
    ensures !Named(rows[0]) ==> NamedRows(rows) == NamedRows(rows[1..])
  {
    if !Named(rows[0]) {
      assert [] + RowsAttributes(rows[1..]).value == RowsAttributes(rows[1..]).value;
      assert [] + NamedRows(rows[1..]) == NamedRows(rows[1..]);
    }
  }

  lemma FollowsCons(a: Attribute, row: Row, attrs: seq<Attribute>, named: seq<Row>)
    requires RowAttribute(row) == Ok(Some(a))
    requires |attrs| == |named| && forall j :: 0 <= j < |attrs| ==> RowAttribute(named[j]) == Ok(Some(attrs[j]))
    ensures var attrs', named' := [a] + attrs, [row] + named;
      |attrs'| == |named'| && forall j :: 0 <= j < |attrs'| ==> RowAttribute(named'[j]) == Ok(Some(attrs'[j]))
  {
    var attrs', named' := [a] + attrs, [row] + named;
    forall j | 1 <= j < |attrs'| ensures RowAttribute(named'[j]) == Ok(Some(attrs'[j])) {
      assert named'[j] == named[j - 1] && attrs'[j] == attrs[j - 1];
    }
  }

  // ----- The section state machine -----

  /** The classifier's state: finished operations, the current one, and what is expected next. */
  datatype Scanner = Scanner(done: seq<Operation>, current: Option<Operation>, nextKind: Option<Expect>)

  const Initial := Scanner([], None, None)

  /** The finished operations, plus the current one when it may be emitted. */
  function Flush(s: Scanner): seq<Operation> {
    if s.current.Some? && Emittable(s.current.value) then s.done + [s.current.value] else s.done
  }

  /** The marker paragraphs and the expectation each one sets. */
  function MarkerKind(text: Option<string>): Option<Expect> {
    if text == Some("Supported attributes:") then Some(ExpectAttribute)
    else if text == Some("Example request:") then Some(ExpectRequest)
    else if text == Some("Example response:") then Some(ExpectResponse)
    else None
  }

  /** One iteration of the loop over the document's top-level nodes. */
  function Step(s: Scanner, node: Node): (r: Outcome<Scanner>)
    ensures r.Ok? ==> r.value.done == s.done || r.value.done == Flush(s)
  {
    if IsSectionHeading(node) then
      match GetTitle(node)
      case Err(e) => Err(e)
      case Ok(title) => Ok(Scanner(Flush(s), Some(Operation(title, None, None, None, None)), Some(ExpectUri)))
    else if s.current.None? then Ok(s)
    else
      var op := s.current.value;
      var marker := MarkerKind(FindFirstText(Inlines(node)));
      if marker.Some? then Ok(s.(nextKind := marker))
      else
        match node
        case Table(_, _) =>
          if op.attribute.None? && s.nextKind == Some(ExpectAttribute) then
            match TableAttributes(node)
            case Err(e) => Err(e)
            case Ok(attrs) => Ok(s.(current := Some(op.(attribute := Some(attrs)))))
          else Ok(s)
        case Fence(content) =>
          if op.uri.None? && s.nextKind == Some(ExpectUri) then
            Ok(s.(current := Some(op.(uri := Some(content)))))
          else if op.exampleRequest.None? && s.nextKind == Some(ExpectRequest) then
            Ok(s.(current := Some(op.(exampleRequest := Some(content)))))
          else if op.exampleResponse.None? && s.nextKind == Some(ExpectResponse) then
            Ok(s.(current := Some(op.(exampleResponse := Some(content)))))
          else Ok(s)
        case _ => Ok(s)
  }

  /** The loop from state `s` over `nodes`; the first failing node aborts. */
  function Run(s: Scanner, nodes: seq<Node>): (r: Outcome<Scanner>)
    ensures AllEmittable(s.done) && r.Ok? ==> AllEmittable(r.value.done)
    decreases |nodes|
  {
    if nodes == [] then Ok(s)
    else
      match Step(s, nodes[0])
      case Err(e) => Err(e)
      case Ok(s') => Run(s', nodes[1..])
  }

  /** `parse_operations` on the document's top-level nodes: every operation it returns has a URI. */
  function Scan(nodes: seq<Node>): (r: Outcome<seq<Operation>>)
    ensures r.Ok? ==> AllEmittable(r.value)
  {
    match Run(Initial, nodes)
    case Err(e) => Err(e)
    case Ok(s) => Ok(Flush(s))
  }

  method ParseOperations(nodes: seq<Node>) returns (r: Outcome<seq<Operation>>)
    ensures r == Scan(nodes)
  {
    var operations: seq<Operation> := [];
    var operation: Option<Operation> := None;
    var nextKind: Option<Expect> := None;
    var rest := nodes;
    while rest != []
      invariant Run(Initial, nodes) == Run(Scanner(operations, operation, nextKind), rest)
      decreases |rest|
    {
      var node := rest[0];
      ghost var before := Scanner(operations, operation, nextKind);
      if IsSectionHeading(node) {
        if operation.Some? && Emittable(operation.value) {
          operations := operations + [operation.value];
        }
        var title := GetTitle(node);
        if title.Err? {
          return Err(title.error);
        }
        operation := Some(Operation(title.value, None, None, None, None));
        nextKind := Some(ExpectUri);
      } else if operation.Some? {
        var text := FindFirstText(Inlines(node));
        if text == Some("Supported attributes:") {
          nextKind := Some(ExpectAttribute);
        } else if text == Some("Example request:") {
          nextKind := Some(ExpectRequest);
        } else if text == Some("Example response:") {
          nextKind := Some(ExpectResponse);
        } else if node.Table? {
          if operation.value.attribute.None? && nextKind == Some(ExpectAttribute) {
            var attrs := ParseAttribute(node);
            if attrs.Err? {
              return Err(attrs.error);
            }
            operation := Some(operation.value.(attribute := Some(attrs.value)));
          }
        } else if node.Fence? {
          if operation.value.uri.None? && nextKind == Some(ExpectUri) {
            operation := Some(operation.value.(uri := Some(node.content)));
          } else if operation.value.exampleRequest.None? && nextKind == Some(ExpectRequest) {
            operation := Some(operation.value.(exampleRequest := Some(node.content)));
          } else if operation.value.exampleResponse.None? && nextKind == Some(ExpectResponse) {
            operation := Some(operation.value.(exampleResponse := Some(node.content)));
          }
        }
      }
      assert Step(before, node) == Ok(Scanner(operations, operation, nextKind));
      rest := rest[1..];
    }
    if operation.Some? && Emittable(operation.value) {
      operations := operations + [operation.value];
    }
    return Ok(operations);
  }

  // ----- Properties of the classifier -----

  predicate NoSectionHeading(nodes: seq<Node>) {
    forall i :: 0 <= i < |nodes| ==> !IsSectionHeading(nodes[i])
  }

  lemma StepBeforeSection(node: Node)
    requires !IsSectionHeading(node)
    ensures Step(Initial, node) == Ok(Initial)
  {
  }

  lemma {:induction false} RunPreamble(pre: seq<Node>, rest: seq<Node>)
    requires NoSectionHeading(pre)
    ensures Run(Initial, pre + rest) == Run(Initial, rest)
    decreases |pre|
  {
    if pre != [] {
      assert (pre + rest)[0] == pre[0] && (pre + rest)[1..] == pre[1..] + rest;
      StepBeforeSection(pre[0]);
      assert Run(Initial, pre + rest) == Run(Initial, pre[1..] + rest);
      RunPreamble(pre[1..], rest);
    } else {
      assert pre + rest == rest;
    }
  }

  /** Nodes before the first `##`/`###` heading belong to no operation: they change nothing. */
  lemma PreambleIgnored(pre: seq<Node>, rest: seq<Node>)
    requires NoSectionHeading(pre)
    ensures Scan(pre + rest) == Scan(rest)
  {
    RunPreamble(pre, rest);
  }

  /** A document without `##`/`###` headings yields no operations. */
  lemma NoSectionNoOperations(nodes: seq<Node>)
    requires NoSectionHeading(nodes)
    ensures Scan(nodes) == Ok([])
  {
    PreambleIgnored(nodes, []);
    assert nodes + [] == nodes;
  }

  /**
    One node inside a section: a marker paragraph only switches the expectation and is not stored;
    otherwise the expectation stays, and at most one field of the current operation changes: the
    one the expectation names, only while it is unset, and only from a node of the matching kind.
  */
  lemma StepInSection(s: Scanner, node: Node)
    requires s.current.Some? && !IsSectionHeading(node) && Step(s, node).Ok?
    ensures var t := Step(s, node).value;
      var op := s.current.value;
      var marker := MarkerKind(FindFirstText(Inlines(node)));
      && t.done == s.done && t.current.Some?
      && (marker.Some? ==> t == s.(nextKind := marker))
      && (marker.None? ==> t.nextKind == s.nextKind)
      && var op' := t.current.value;
      && (|| op' == op.(uri := op'.uri)
          || op' == op.(attribute := op'.attribute)
          || op' == op.(exampleRequest := op'.exampleRequest)
          || op' == op.(exampleResponse := op'.exampleResponse))
      && (op'.uri != op.uri ==>
            op.uri.None? && s.nextKind == Some(ExpectUri) && node.Fence? && op'.uri == Some(node.content))
      && (op'.attribute != op.attribute ==>
            op.attribute.None? && s.nextKind == Some(ExpectAttribute) && node.Table?
            && TableAttributes(node) == Ok(op'.attribute.value))
      && (op'.exampleRequest != op.exampleRequest ==>
            op.exampleRequest.None? && s.nextKind == Some(ExpectRequest) && node.Fence?
            && op'.exampleRequest == Some(node.content))
      && (op'.exampleResponse != op.exampleResponse ==>
            op.exampleResponse.None? && s.nextKind == Some(ExpectResponse) && node.Fence?
            && op'.exampleResponse == Some(node.content))
  {
  }

  /**
    A `##`/`###` heading flushes the current operation (kept only with a non-empty URI) and opens a
    new one titled by the heading's text, expecting its URI example; a heading without text aborts.
  */
  lemma HeadingOpensOperation(s: Scanner, node: Node)
    requires IsSectionHeading(node)
    ensures GetTitle(node).Ok? ==>
      Step(s, node) == Ok(Scanner(Flush(s), Some(Operation(GetTitle(node).value, None, None, None, None)), Some(ExpectUri)))
    ensures GetTitle(node).Err? ==> Step(s, node) == Err(MissingTitle)
  {
  }

  /** Inside a section, a marker paragraph switches the expectation and changes nothing else. */
  lemma MarkerSwitches(s: Scanner, node: Node)
    requires s.current.Some? && !IsSectionHeading(node)
    requires MarkerKind(FindFirstText(Inlines(node))).Some?
    ensures Step(s, node) == Ok(s.(nextKind := MarkerKind(FindFirstText(Inlines(node)))))
  {
  }

  /** A fence while the URI is expected and unset becomes the URI example. */
  lemma FenceFillsUri(s: Scanner, content: string)
    requires s.current.Some? && s.current.value.uri.None? && s.nextKind == Some(ExpectUri)
    ensures Step(s, Fence(content)) == Ok(s.(current := Some(s.current.value.(uri := Some(content)))))
  {
  }

  /** A fence while the example request is expected and unset becomes the example request. */
  lemma FenceFillsRequest(s: Scanner, content: string)
    requires s.current.Some? && s.current.value.exampleRequest.None? && s.nextKind == Some(ExpectRequest)
    ensures Step(s, Fence(content)) == Ok(s.(current := Some(s.current.value.(exampleRequest := Some(content)))))
  {
  }

  /** A fence while the example response is expected and unset becomes the example response. */
  lemma FenceFillsResponse(s: Scanner, content: string)
    requires s.current.Some? && s.current.value.exampleResponse.None? && s.nextKind == Some(ExpectResponse)
    ensures Step(s, Fence(content)) == Ok(s.(current := Some(s.current.value.(exampleResponse := Some(content)))))
  {
  }

  /**
    A table (that is not itself a marker) while the attributes are expected and unset is read as
    the attribute table; a table that cannot be read aborts.
  */
  lemma TableFillsAttribute(s: Scanner, head: Row, body: Option<seq<Row>>)
    requires s.current.Some? && s.current.value.attribute.None? && s.nextKind == Some(ExpectAttribute)
    requires MarkerKind(FindFirstText(Inlines(Table(head, body)))).None?
    ensures var table := Table(head, body);
      && (TableAttributes(table).Ok? ==>
            Step(s, table) == Ok(s.(current := Some(s.current.value.(attribute := Some(TableAttributes(table).value))))))
      && (TableAttributes(table).Err? ==> Step(s, table) == Err(TableAttributes(table).error))
  {
  }

  /**
    A section, from its heading up to the next heading or the end of the document: the operation
    it opened carries the heading's title, and flushing appends it to the operations finished
    before exactly when its URI is non-empty.
  */
  lemma {:induction false} SectionEmitted(s: Scanner, heading: Node, body: seq<Node>)
    requires IsSectionHeading(heading) && NoSectionHeading(body) && Run(s, [heading] + body).Ok?
    ensures var t := Run(s, [heading] + body).value;
      && t.current.Some? && GetTitle(heading) == Ok(t.current.value.title)
      && Flush(t) == Flush(s) + (if Emittable(t.current.value) then [t.current.value] else [])
  {
    assert ([heading] + body)[0] == heading && ([heading] + body)[1..] == body;
    var middle := Step(s, heading).value;
    FilledFieldsStay(middle, body);
  }

  /** A document of one section, a heading and its URI fence, gives that one operation. */
  lemma OneSection(title: string, uri: string)
    requires title != []
    ensures Scan([Heading("##", [title]), Fence(uri)]) ==
      Ok(if uri != [] then [Operation(Strip(title), Some(uri), None, None, None)] else [])
  {
    var heading := Heading("##", [title]);
    var nodes := [heading, Fence(uri)];
    assert Concat([title]) == title + Concat([]) == title;
    assert GetTitle(heading) == Ok(Strip(title));
    var start := Scanner([], Some(Operation(Strip(title), None, None, None, None)), Some(ExpectUri));
    assert Step(Initial, heading) == Ok(start);
    FenceFillsUri(start, uri);
    assert nodes[1..] == [Fence(uri)] && [Fence(uri)][1..] == [];
    assert Run(Initial, nodes) == Run(start, [Fence(uri)]);
    var filled := start.(current := Some(Operation(Strip(title), Some(uri), None, None, None)));
    assert Run(start, [Fence(uri)]) == Run(filled, []) == Ok(filled);
    assert Scan(nodes) == Ok(Flush(filled));
    if uri != [] {
      assert Flush(filled) == [] + [filled.current.value] == [filled.current.value];
    }
  }

  /**
    First match wins: between two section headings, a field of the current operation keeps its
    value once set, the title stays, and the finished operations are untouched.
  */
  lemma {:induction false} FilledFieldsStay(s: Scanner, nodes: seq<Node>)
    requires s.current.Some? && NoSectionHeading(nodes) && Run(s, nodes).Ok?
    ensures var t := Run(s, nodes).value;
      var op := s.current.value;
      && t.done == s.done && t.current.Some? && t.current.value.title == op.title
      && (op.uri.Some? ==> t.current.value.uri == op.uri)
      && (op.attribute.Some? ==> t.current.value.attribute == op.attribute)
      && (op.exampleRequest.Some? ==> t.current.value.exampleRequest == op.exampleRequest)
      && (op.exampleResponse.Some? ==> t.current.value.exampleResponse == op.exampleResponse)
    decreases |nodes|
  {
    if nodes != [] {
      StepInSection(s, nodes[0]);
      FilledFieldsStay(Step(s, nodes[0]).value, nodes[1..]);
    }
  }

  /**
    An empty first URI fence sets the URI to the empty string: it blocks every later URI fence, and
    the section is dropped when the next heading or the end of the document arrives.
  */
  lemma EmptyUriDropsSection(s: Scanner, nodes: seq<Node>)
    requires s.current.Some? && s.current.value.uri == Some([])
    requires NoSectionHeading(nodes) && Run(s, nodes).Ok?
    ensures var t := Run(s, nodes).value; t.current.Some? && t.current.value.uri == Some([])
    ensures Flush(Run(s, nodes).value) == s.done
  {
    FilledFieldsStay(s, nodes);
  }

  /** A section heading directly followed by another one yields no operation. */
  lemma HeadingAfterHeading(s: Scanner, first: Node, second: Node)
    requires IsSectionHeading(first) && IsSectionHeading(second)
    requires Run(s, [first, second]).Ok?
    ensures Run(s, [first, second]).value.done == Flush(s)
  {
    assert [first, second][1..] == [second];
    assert [second][1..] == [];
    assert Step(s, first).Ok?;
    var middle := Step(s, first).value;
    assert middle.done == Flush(s) && !Emittable(middle.current.value);
    assert Run(s, [first, second]) == Run(middle, [second]);
    assert Step(middle, second).Ok?;
    var last := Step(middle, second).value;
    assert Run(middle, [second]) == Ok(last);
    assert last.done == Flush(middle) == middle.done;
  }
}
