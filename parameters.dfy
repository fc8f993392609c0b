/**
  The parameter classifier: splits an operation's attributes into path and query parameters and
  the fields of a form-encoded request body.
*/
module Parameters {
  import opened Wrappers
  import opened Sections

  datatype ParamKind = Query | Path

  /** The `in` value of an OpenAPI parameter object. */
  function KindName(kind: ParamKind): string {
    match kind
    case Query => "query"
    case Path => "path"
  }

  /** A query or path parameter; `schema` is the attribute's type cell, not yet checked. */
  datatype Parameter = Parameter(
    name: string,
    kind: ParamKind,
    description: Option<string>,
    required: bool,
    schema: Option<string>)

  /** A required cell counts only when it is exactly "Yes" or "yes". */
  predicate IsRequired(cell: Option<string>) {
    cell == Some("Yes") || cell == Some("yes")
  }

  /**
    Where one attribute goes: a name among the path parameters makes a path parameter, even when
    it is also a form field; a name only among the form fields goes to the body; any other
    attribute makes a query parameter. Exactly one of the two lists is non-empty.
  */
  function Classify(attr: Attribute, paths: seq<string>, forms: seq<string>): (r: (seq<Parameter>, seq<Attribute>))
    ensures |r.0| + |r.1| == 1
    ensures r.1 != [] <==> attr.name !in paths && attr.name in forms
    ensures r.1 != [] ==> r.1 == [attr]
    ensures r.0 != [] ==> (r.0[0].kind == Path <==> attr.name in paths)
    ensures r.0 != [] ==> r.0[0].name == attr.name && r.0[0].description == attr.description
    ensures r.0 != [] ==> r.0[0].schema == attr.typ && (r.0[0].required <==> IsRequired(attr.required))
  {
    if attr.name in paths then
      ([Parameter(attr.name, Path, attr.description, IsRequired(attr.required), attr.typ)], [])
    else if attr.name in forms then ([], [attr])
    else ([Parameter(attr.name, Query, attr.description, IsRequired(attr.required), attr.typ)], [])
  }

  /** The attributes classified one by one, each list in input order. */
  function Partition(attrs: seq<Attribute>, paths: seq<string>, forms: seq<string>): (r: (seq<Parameter>, seq<Attribute>))
    ensures |r.0| + |r.1| == |attrs|
  {
    if attrs == [] then ([], [])
    else
      var init := Partition(attrs[..|attrs| - 1], paths, forms);
      var last := Classify(attrs[|attrs| - 1], paths, forms);
      (init.0 + last.0, init.1 + last.1)
  }

  /** `parse_parameter`'s result: no attributes (`None`, or the empty table's `""`) give nothing. */
  function SplitAttributes(attributes: Option<seq<Attribute>>, paths: seq<string>, forms: seq<string>): (seq<Parameter>, seq<Attribute>) {
    if attributes.None? || attributes.value == [] then ([], [])
    else Partition(attributes.value, paths, forms)
  }

  /** `parse_parameter`: one pass over the attributes, appending to one of the two lists. */
  method ParseParameter(attributes: Option<seq<Attribute>>, paths: seq<string>, forms: seq<string>)
    returns (parameters: seq<Parameter>, body: seq<Attribute>)
    ensures (parameters, body) == SplitAttributes(attributes, paths, forms)
  {
    parameters := [];
    body := [];
    if attributes.None? || attributes.value == [] {
      return;
    }
    var attrs := attributes.value;
    for i := 0 to |attrs|
      invariant (parameters, body) == Partition(attrs[..i], paths, forms)
    {
      var attr := attrs[i];
      ghost var placed := Classify(attr, paths, forms);
      assert attrs[..i + 1][..i] == attrs[..i];
      assert Partition(attrs[..i + 1], paths, forms) == (parameters + placed.0, body + placed.1);
      var kind := Query;
      if attr.name in paths {
        kind := Path;
      } else if attr.name in forms {
        assert placed == ([], [attr]) && parameters + [] == parameters;
        body := body + [attr];
        continue;
      }
      var parameter := Parameter(attr.name, kind, attr.description, IsRequired(attr.required), attr.typ);
      assert placed == ([parameter], []) && body + [] == body;
      parameters := parameters + [parameter];
    }
    assert attrs[..|attrs|] == attrs;
  }

  /** Classifying a list is classifying its parts: neither list is reordered. */
  lemma {:induction false} PartitionAppend(a: seq<Attribute>, b: seq<Attribute>, paths: seq<string>, forms: seq<string>)
    ensures var pa := Partition(a, paths, forms);
      var pb := Partition(b, paths, forms);
      Partition(a + b, paths, forms) == (pa.0 + pb.0, pa.1 + pb.1)
    decreases |b|
  {
    var pa := Partition(a, paths, forms);
    if b == [] {
      assert a + b == a;
      assert pa.0 + [] == pa.0 && pa.1 + [] == pa.1;
    } else {
      var ab := a + b;
      var front := b[..|b| - 1];
      var last := Classify(b[|b| - 1], paths, forms);
      assert ab[..|ab| - 1] == a + front;
      assert ab[|ab| - 1] == b[|b| - 1];
      PartitionAppend(a, front, paths, forms);
      var pf := Partition(front, paths, forms);
      assert Partition(b, paths, forms) == (pf.0 + last.0, pf.1 + last.1);
      assert Partition(ab, paths, forms) == (pa.0 + pf.0 + last.0, pa.1 + pf.1 + last.1);
      Associative(pa.0, pf.0, last.0);
      Associative(pa.1, pf.1, last.1);
    }
  }

  lemma Associative<T>(x: seq<T>, y: seq<T>, z: seq<T>)
    ensures x + y + z == x + (y + z)
  {
  }

  /** A single attribute is classified by `Classify`. */
  lemma PartitionOne(attr: Attribute, paths: seq<string>, forms: seq<string>)
    ensures Partition([attr], paths, forms) == Classify(attr, paths, forms)
  {
    var c := Classify(attr, paths, forms);
    assert [attr][..0] == [];
    assert Partition([attr], paths, forms) == ([] + c.0, [] + c.1);
    assert [] + c.0 == c.0 && [] + c.1 == c.1;
  }

  /** A name that is a path parameter stays one when it also occurs among the form fields. */
  lemma PathBeatsForm(attr: Attribute, paths: seq<string>, forms: seq<string>)
    requires attr.name in paths && attr.name in forms
    ensures var (params, body) := SplitAttributes(Some([attr]), paths, forms);
      body == [] && |params| == 1 && params[0].kind == Path
  {
    PartitionOne(attr, paths, forms);
  }

  /** The body holds exactly the attributes named only among the form fields, in input order. */
  lemma {:induction false} BodyIsFormOnly(attrs: seq<Attribute>, paths: seq<string>, forms: seq<string>)
    ensures Partition(attrs, paths, forms).1 == FormOnly(attrs, paths, forms)
    decreases |attrs|
  {
    if attrs != [] {
      BodyIsFormOnly(attrs[..|attrs| - 1], paths, forms);
    }
  }

  /** The attributes named among the form fields and not among the path parameters. */
  function FormOnly(attrs: seq<Attribute>, paths: seq<string>, forms: seq<string>): seq<Attribute> {
    if attrs == [] then []
    else
      var a := attrs[|attrs| - 1];
      FormOnly(attrs[..|attrs| - 1], paths, forms) + (if a.name !in paths && a.name in forms then [a] else [])
  }
}
