/**
  The part of the markdown syntax tree the converter looks at. The tree itself comes from an
  external markdown parser; a node is described here by what the converter reads from it: the
  heading markup, the text and inline-code contents of its descendants in walk order, the cells of
  a table, and the content of a fenced code block.
*/
module Markdown {
  import opened Wrappers
  import opened Text
  import opened Failures

  /** The contents of the text and inline-code nodes below one table cell, in walk order. */
  type Cell = seq<string>
  type Row = seq<Cell>

  datatype Node =
    | Heading(markup: string, inlines: seq<string>)  // markup "#" to "######" (or a setext underline)
    | Table(head: Row, body: Option<seq<Row>>)         // no body when the table has no body rows
    | Fence(content: string)                            // a fenced code block; it has no child nodes
    | Block(inlines: seq<string>)                       // any other top-level node: paragraph, list, quote, ...

  function RowInlines(row: Row): seq<string> {
    if row == [] then [] else row[0] + RowInlines(row[1..])
  }

  function RowsInlines(rows: seq<Row>): seq<string> {
    if rows == [] then [] else RowInlines(rows[0]) + RowsInlines(rows[1..])
  }

  /** Every text and inline-code content below `n` (not `n` itself), in walk order. */
  function Inlines(n: Node): seq<string> {
    match n
    case Heading(_, t) => t
    case Table(head, body) => RowsInlines([head] + (if body.Some? then body.value else []))
    case Fence(_) => []
    case Block(t) => t
  }

  /** A `##` or `###` heading: the nodes that open an operation section. */
  predicate IsSectionHeading(n: Node) {
    n.Heading? && (n.markup == "##" || n.markup == "###")
  }

  /**
    `find_first_text`: the concatenated text, stripped, or nothing when the concatenation is empty.
    Its properties are stated by `FirstTextFacts`.
  */
  function FindFirstText(texts: seq<string>): Option<string> {
    var content := Concat(texts);
    if content != [] then Some(Strip(content)) else None
  }

  /** `find_first_text`'s walk: the fragments are appended one by one, then the text is stripped. */
  method WalkFirstText(texts: seq<string>) returns (r: Option<string>)
    ensures r == FindFirstText(texts)
  {
    var content := "";
    var rest := texts;
    while rest != []
      invariant content + Concat(rest) == Concat(texts)
      decreases |rest|
    {
      assert content + Concat(rest) == (content + rest[0]) + Concat(rest[1..]);
      content := content + rest[0];
      rest := rest[1..];
    }
    assert content + [] == content;
    if content != [] {
      return Some(Strip(content));
    }
    return None;
  }

  /**
    The text is absent only when every fragment is empty; text made of whitespace alone gives the
    empty string; otherwise the result neither starts nor ends with whitespace.
  */
  lemma FirstTextFacts(texts: seq<string>)
    ensures var r := FindFirstText(texts);
      && (r.None? <==> forall i :: 0 <= i < |texts| ==> texts[i] == [])
      && (r.Some? ==> (r.value == [] <==> AllSpace(Concat(texts))))
      && (r.Some? && r.value != [] ==> !IsSpace(r.value[0]) && !IsSpace(r.value[|r.value| - 1]))
  {
    ConcatEmpty(texts);
    if Concat(texts) != [] {
      StrippedText(Concat(texts), FindFirstText(texts).value);
    }
  }

  lemma StrippedText(content: string, text: string)
    requires text == Strip(content)
    ensures text == [] <==> AllSpace(content)
    ensures text != [] ==> !IsSpace(text[0]) && !IsSpace(text[|text| - 1])
  {
    StripFacts(content);
  }

  /** `get_title`: a section heading must have some text; whitespace alone is accepted. */
  function GetTitle(n: Node): (r: Outcome<string>)
    ensures r.Err? <==> forall i :: 0 <= i < |Inlines(n)| ==> Inlines(n)[i] == []
    ensures r.Err? ==> r.error == MissingTitle
    ensures r.Ok? ==> (r.value == [] <==> AllSpace(Concat(Inlines(n))))
  {
    FirstTextFacts(Inlines(n));
    match FindFirstText(Inlines(n))
    case Some(text) => Ok(text)
    case None => Err(MissingTitle)
  }
}
