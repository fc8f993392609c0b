/**
  The schema assembler: turns one operation's method, path, title, parameters, body fields and
  response description into an OpenAPI path item, keyed by the full API path.
*/
module Assembler {
  import opened Wrappers
  import opened Text
  import opened JsonValues
  import opened Failures
  import opened Dicts
  import opened Sections
  import opened Parameters
  import opened TypeInference

  const ApiPrefix := "/api/v4"

  /**
    The schema of a parameter from its lower-cased type cell: the two array spellings become array
    schemas, any other text is used as the type name as it is.
  */
  function ParamSchema(lowered: string): (r: Json)
    ensures r.Obj? && |r.members| >= 1 && r.members[0].0 == "type"
    ensures r.members[0].1 == Str(if lowered in ["string array", "integer array"] then "array" else lowered)
    ensures lowered == "string array" ==> Get(r.members, "items") == Some(Obj(TypeOnly("string")))
    ensures lowered == "integer array" ==> Get(r.members, "items") == Some(Obj(TypeOnly("integer")))
    ensures lowered != "string array" && lowered != "integer array" ==> r == Obj([("type", Str(lowered))])
  {
    if lowered == "string array" then Obj([("type", Str("array")), ("items", Obj(TypeOnly("string")))])
    else if lowered == "integer array" then Obj([("type", Str("array")), ("items", Obj(TypeOnly("integer")))])
    else Obj(TypeOnly(lowered))
  }

  /**
    A parameter object (its contents are stated by `ParamObjectContents`). A parameter without a
    type cannot be lower-cased and fails.
  */
  function ParamObject(p: Parameter): (r: Outcome<Json>)
    ensures r.Err? <==> p.schema.None?
    ensures r.Err? ==> r.error == MissingType(p.name)
  {
    match p.schema
    case None => Err(MissingType(p.name))
    case Some(t) =>
      Ok(Obj([("name", Str(p.name)), ("in", Str(KindName(p.kind))), ("description", OptStr(p.description)),
              ("required", Bool(p.required)), ("schema", ParamSchema(Lower(t)))]))
  }

  /**
    The object of a typed parameter has the five keys of an OpenAPI parameter: its name, where it
    goes, its description, whether it is required, and the schema of its lower-cased type cell.
  */
  lemma ParamObjectContents(p: Parameter)
    requires p.schema.Some?
    ensures ParamObject(p).Ok? && ParamObject(p).value.Obj?
    ensures var o := ParamObject(p).value.members;
      && Keys(o) == ["name", "in", "description", "required", "schema"]
      && Get(o, "name") == Some(Str(p.name))
      && Get(o, "in") == Some(Str(KindName(p.kind)))
      && Get(o, "description") == Some(OptStr(p.description))
      && Get(o, "required") == Some(Bool(p.required))
      && Get(o, "schema") == Some(ParamSchema(Lower(p.schema.value)))
  {
    ParamObjectLookups(ParamObject(p).value.members);
  }

  lemma ParamObjectLookups(o: Dict)
    requires |o| == 5 && o[0].0 == "name" && o[1].0 == "in" && o[2].0 == "description"
    requires o[3].0 == "required" && o[4].0 == "schema"
    ensures Keys(o) == ["name", "in", "description", "required", "schema"]
    ensures Get(o, "name") == Some(o[0].1) && Get(o, "in") == Some(o[1].1)
    ensures Get(o, "description") == Some(o[2].1) && Get(o, "required") == Some(o[3].1)
    ensures Get(o, "schema") == Some(o[4].1)
  {
    assert "name"[0] == 'n' && "in"[0] == 'i' && "description"[0] == 'd' && "required"[0] == 'r' && "schema"[0] == 's';
    PositionIs(o, "in", 1);
    PositionIs(o, "description", 2);
    PositionIs(o, "required", 3);
    PositionIs(o, "schema", 4);
  }

  /** The parameter objects in order; the first parameter without a type aborts. */
  function ParamObjects(ps: seq<Parameter>): (r: Outcome<seq<Json>>)
    ensures r.Ok? <==> forall i :: 0 <= i < |ps| ==> ps[i].schema.Some?
    ensures r.Ok? ==> |r.value| == |ps|
    ensures r.Err? ==>
      exists i :: 0 <= i < |ps| && ps[i].schema.None? && r.error == MissingType(ps[i].name) &&
        forall j :: 0 <= j < i ==> ps[j].schema.Some?
  {
    if ps == [] then Ok([])
    else
      match ParamObject(ps[0])
      case Err(e) => Err(e)
      case Ok(o) =>
        var rest := ParamObjects(ps[1..]);
        assert forall i :: 1 <= i < |ps| ==> ps[i] == ps[1..][i - 1];
        Prepend([o], rest)
  }

  /** On success, the i-th parameter object is the object of the i-th parameter. */
  lemma {:induction false} ParamObjectsElementwise(ps: seq<Parameter>)
    requires ParamObjects(ps).Ok?
    ensures forall i :: 0 <= i < |ps| ==> ParamObject(ps[i]) == Ok(ParamObjects(ps).value[i])
  {
    if ps != [] {
      ParamObjectsElementwise(ps[1..]);
      var objs := ParamObjects(ps).value;
      var rest := ParamObjects(ps[1..]).value;
      assert objs == [ParamObject(ps[0]).value] + rest;
      forall i | 1 <= i < |ps| ensures ParamObject(ps[i]) == Ok(objs[i]) {
        assert ps[i] == ps[1..][i - 1] && objs[i] == rest[i - 1];
      }
    }
  }

  /** A body property keeps the type cell as it is written, not lower-cased. */
  function BodyProperty(a: Attribute): Json {
    Obj([("description", OptStr(a.description)), ("type", OptStr(a.typ))])
  }

  /** The names of the body fields, in order, repeats kept. */
  function FieldNames(request: seq<Attribute>): (names: seq<string>)
    ensures |names| == |request|
    ensures forall i :: 0 <= i < |request| ==> names[i] == request[i].name
  {
    if request == [] then []
    else
      var front := request[..|request| - 1];
      assert forall i :: 0 <= i < |front| ==> front[i] == request[i];
      FieldNames(front) + [request[|request| - 1].name]
  }

  /**
    `properties |= {name: ...}` for each body field in order: a repeated name keeps its first place
    and takes the last value (see `BodyPropertiesKeys` and `LastBodyFieldWins`).
  */
  function BodyProperties(request: seq<Attribute>): Dict {
    if request == [] then []
    else
      var last := request[|request| - 1];
      Put(BodyProperties(request[..|request| - 1]), last.name, BodyProperty(last))
  }

  /** The property keys are exactly the body field names. */
  lemma {:induction false} BodyPropertiesKeys(request: seq<Attribute>)
    ensures forall k :: k in Keys(BodyProperties(request)) <==> k in FieldNames(request)
    decreases |request|
  {
    if request != [] {
      var front := request[..|request| - 1];
      BodyPropertiesKeys(front);
      assert FieldNames(request) == FieldNames(front) + [request[|request| - 1].name];
    }
  }

  /** Python truthiness of an optional cell: present and not empty, so "No" counts. */
  predicate Truthy(cell: Option<string>) {
    cell.Some? && cell.value != []
  }

  /** The names of the body fields whose required cell is truthy, in order, repeats kept. */
  function RequiredNames(request: seq<Attribute>): (names: seq<string>)
    ensures |names| <= |request|
  {
    if request == [] then []
    else
      var last := request[|request| - 1];
      RequiredNames(request[..|request| - 1]) + (if Truthy(last.required) then [last.name] else [])
  }

  /** The JSON strings of the names, in order. */
  function StrArray(names: seq<string>): seq<Json> {
    if names == [] then [] else [Str(names[0])] + StrArray(names[1..])
  }

  /** The form-encoded request body around the properties and the required names. */
  function FormBody(properties: Dict, required: seq<string>): Json {
    var schema := Obj([("type", Str("object")), ("properties", Obj(properties)), ("required", Arr(StrArray(required)))]);
    Obj([("content", Obj([("application/x-www-form-urlencoded", Obj([("schema", schema)]))]))])
  }

  function RequestBody(request: seq<Attribute>): Json {
    FormBody(BodyProperties(request), RequiredNames(request))
  }

  /** The responses object: a single "2XX" entry, described as a success only when there is a schema. */
  function Responses(response: Dict): Json {
    if |response| > 0 then
      Obj([("2XX", Obj([("description", Str("success")),
                        ("content", Obj([("application/json", Obj([("schema", Obj(response))]))]))]))])
    else
      Obj([("2XX", Obj([("description", Str("not provided"))]))])
  }

  /**
    There is exactly one response, "2XX". It is described as "success" when the response
    description is non-empty and as "not provided" otherwise, and it has content exactly then.
  */
  lemma ResponsesShape(response: Dict)
    ensures var r := Responses(response);
      && r.Obj? && Keys(r.members) == ["2XX"] && r.members[0].1.Obj?
      && Get(r.members[0].1.members, "description") == Some(Str(if response != [] then "success" else "not provided"))
      && (response != [] <==> "content" in Keys(r.members[0].1.members))
      && (response != [] ==>
            var content := Get(r.members[0].1.members, "content").value;
            && content.Obj? && Keys(content.members) == ["application/json"]
            && content.members[0].1.Obj? && content.members[0].1.members == [("schema", Obj(response))])
  {
    var entry := Responses(response).members[0].1.members;
    assert Keys(Responses(response).members) == ["2XX"];
    if response != [] {
      assert Keys(entry) == ["description", "content"];
      assert "description"[0] == 'd' && "content"[0] == 'c';
      PositionIs(entry, "content", 1);
    } else {
      assert Keys(entry) == ["description"];
    }
  }

  /**
    The layout of an operation object: "description" first, then "parameters" and "requestBody"
    when present, then "responses". In the source each of these keys is new when it is set, so it
    is appended in this order.
  */
  function Layout(description: Json, params: Option<Json>, body: Option<Json>, responses: Json): (op: Dict)
    ensures Get(op, "description") == Some(description)
    ensures Get(op, "parameters") == params
    ensures Get(op, "requestBody") == body
    ensures Get(op, "responses") == Some(responses)
  {
    var op := [("description", description)]
              + (if params.Some? then [("parameters", params.value)] else [])
              + (if body.Some? then [("requestBody", body.value)] else [])
              + [("responses", responses)];
    LayoutLookups(description, params, body, responses, op);
    op
  }

  lemma LayoutLookups(description: Json, params: Option<Json>, body: Option<Json>, responses: Json, op: Dict)
    requires op == [("description", description)]
                   + (if params.Some? then [("parameters", params.value)] else [])
                   + (if body.Some? then [("requestBody", body.value)] else [])
                   + [("responses", responses)]
    ensures Get(op, "description") == Some(description)
    ensures Get(op, "parameters") == params
    ensures Get(op, "requestBody") == body
    ensures Get(op, "responses") == Some(responses)
  {
    if params.Some? && body.Some? {
      assert op == [("description", description), ("parameters", params.value), ("requestBody", body.value), ("responses", responses)];
      LayoutBoth(description, params.value, body.value, responses);
    } else if params.Some? {
      assert op == [("description", description), ("parameters", params.value), ("responses", responses)];
      LayoutParameters(description, params.value, responses);
    } else if body.Some? {
      assert op == [("description", description), ("requestBody", body.value), ("responses", responses)];
      LayoutBody(description, body.value, responses);
    } else {
      assert op == [("description", description), ("responses", responses)];
      LayoutNeither(description, responses);
    }
  }

  lemma LayoutBoth(d: Json, p: Json, b: Json, s: Json)
    ensures var op := [("description", d), ("parameters", p), ("requestBody", b), ("responses", s)];
      && Get(op, "description") == Some(d) && Get(op, "parameters") == Some(p)
      && Get(op, "requestBody") == Some(b) && Get(op, "responses") == Some(s)
  {
    var op := [("description", d), ("parameters", p), ("requestBody", b), ("responses", s)];
    assert "description"[0] == 'd' && "parameters"[0] == 'p' && "requestBody"[2] == 'q' && "responses"[2] == 's';
    PositionIs(op, "parameters", 1);
    PositionIs(op, "requestBody", 2);
    PositionIs(op, "responses", 3);
  }

  lemma LayoutParameters(d: Json, p: Json, s: Json)
    ensures var op := [("description", d), ("parameters", p), ("responses", s)];
      && Get(op, "description") == Some(d) && Get(op, "parameters") == Some(p)
      && Get(op, "requestBody") == None && Get(op, "responses") == Some(s)
  {
    var op := [("description", d), ("parameters", p), ("responses", s)];
    assert "description"[0] == 'd' && "parameters"[0] == 'p' && "requestBody"[0] == 'r' && "responses"[0] == 'r';
    assert "requestBody"[2] == 'q' && "responses"[2] == 's';
    PositionIs(op, "parameters", 1);
    PositionIs(op, "responses", 2);
  }

  lemma LayoutBody(d: Json, b: Json, s: Json)
    ensures var op := [("description", d), ("requestBody", b), ("responses", s)];
      && Get(op, "description") == Some(d) && Get(op, "parameters") == None
      && Get(op, "requestBody") == Some(b) && Get(op, "responses") == Some(s)
  {
    var op := [("description", d), ("requestBody", b), ("responses", s)];
    assert "description"[0] == 'd' && "parameters"[0] == 'p' && "requestBody"[2] == 'q' && "responses"[2] == 's';
    PositionIs(op, "requestBody", 1);
    PositionIs(op, "responses", 2);
  }

  lemma LayoutNeither(d: Json, s: Json)
    ensures var op := [("description", d), ("responses", s)];
      && Get(op, "description") == Some(d) && Get(op, "parameters") == None
      && Get(op, "requestBody") == None && Get(op, "responses") == Some(s)
  {
    var op := [("description", d), ("responses", s)];
    assert "description"[0] == 'd' && "parameters"[0] == 'p' && "requestBody"[0] == 'r' && "responses"[0] == 'r';
    assert "requestBody"[2] == 'q' && "responses"[2] == 's';
    PositionIs(op, "responses", 1);
  }

  /**
    The operation object before its method and path are attached: the description is the title,
    "parameters" and "requestBody" are present exactly when there are parameters and body fields,
    and "responses" is always there.
  */
  function OperationObject(description: string, params: seq<Json>, request: seq<Attribute>, response: Dict): (op: Dict)
    ensures "parameters" in Keys(op) <==> params != []
    ensures "requestBody" in Keys(op) <==> request != []
    ensures Get(op, "description") == Some(Str(description))
    ensures params != [] ==> Get(op, "parameters") == Some(Arr(params))
    ensures request != [] ==> Get(op, "requestBody") == Some(RequestBody(request))
    ensures Get(op, "responses") == Some(Responses(response))
  {
    Layout(Str(description), if params != [] then Some(Arr(params)) else None,
           if request != [] then Some(RequestBody(request)) else None, Responses(response))
  }

  /**
    `conv_path`'s result: the full path and the path item `{method: operation}`, with the method
    lower-cased.
  */
  function PathItem(path: string, verb: string, description: string, parameters: seq<Parameter>,
                    request: seq<Attribute>, response: Dict): Outcome<(string, Dict)>
  {
    match ParamObjects(parameters)
    case Err(e) => Err(e)
    case Ok(params) => Ok((ApiPrefix + path, [(Lower(verb), Obj(OperationObject(description, params, request, response)))]))
  }

  /** The parameter loop of `conv_path`: one object per parameter; a parameter without a type aborts. */
  method ParamList(parameters: seq<Parameter>) returns (r: Outcome<seq<Json>>)
    ensures r == ParamObjects(parameters)
  {
    var params: seq<Json> := [];
    var rest := parameters;
    PrependNothing(ParamObjects(parameters));
    while rest != []
      invariant ParamObjects(parameters) == Prepend(params, ParamObjects(rest))
      decreases |rest|
    {
      var parameter := rest[0];
      if parameter.schema.None? {
        return Err(MissingType(parameter.name));
      }
      var ty := Lower(parameter.schema.value);
      var schema := Obj(TypeOnly(ty));
      if ty == "string array" {
        schema := Obj([("type", Str("array")), ("items", Obj(TypeOnly("string")))]);
      } else if ty == "integer array" {
        schema := Obj([("type", Str("array")), ("items", Obj(TypeOnly("integer")))]);
      }
      var entry := Obj([("name", Str(parameter.name)), ("in", Str(KindName(parameter.kind))),
                        ("description", OptStr(parameter.description)), ("required", Bool(parameter.required)),
                        ("schema", schema)]);
      NextParamObject(rest, params, entry);
      params := params + [entry];
      rest := rest[1..];
    }
    assert params + [] == params;
    return Ok(params);
  }

  /** One step of the parameter loop: a typed first parameter's object joins the finished ones. */
  lemma NextParamObject(rest: seq<Parameter>, params: seq<Json>, entry: Json)
    requires rest != [] && rest[0].schema.Some?
    requires var ty := Lower(rest[0].schema.value);
      entry == Obj([("name", Str(rest[0].name)), ("in", Str(KindName(rest[0].kind))),
                    ("description", OptStr(rest[0].description)), ("required", Bool(rest[0].required)),
                    ("schema", if ty == "string array" then Obj([("type", Str("array")), ("items", Obj(TypeOnly("string")))])
                               else if ty == "integer array" then Obj([("type", Str("array")), ("items", Obj(TypeOnly("integer")))])
                               else Obj(TypeOnly(ty)))])
    ensures Prepend(params, ParamObjects(rest)) == Prepend(params + [entry], ParamObjects(rest[1..]))
  {
    assert ParamObject(rest[0]) == Ok(entry);
    assert ParamObjects(rest) == Prepend([entry], ParamObjects(rest[1..]));
    PrependTwice(params, [entry], ParamObjects(rest[1..]));
  }

  /** The body loop of `conv_path`: the properties dict and the required names. */
  method BodyFields(request: seq<Attribute>) returns (properties: Dict, required: seq<string>)
    ensures properties == BodyProperties(request)
    ensures required == RequiredNames(request)
  {
    properties := [];
    required := [];
    for j := 0 to |request|
      invariant properties == BodyProperties(request[..j])
      invariant required == RequiredNames(request[..j])
    {
      var req := request[j];
      ghost var next := request[..j + 1];
      assert next[..|next| - 1] == request[..j] && next[|next| - 1] == req;
      assert BodyProperties(next) == Put(BodyProperties(request[..j]), req.name, BodyProperty(req));
      properties := Put(properties, req.name, BodyProperty(req));
      if req.required.Some? && req.required.value != [] {
        assert RequiredNames(next) == RequiredNames(request[..j]) + [req.name];
        required := required + [req.name];
      } else {
        assert RequiredNames(next) == RequiredNames(request[..j]) + [];
        assert required + [] == required;
      }
    }
    assert request[..|request|] == request;
  }

  /** The operation dict of `conv_path`, one assignment per present key. */
  method BuildOperation(description: string, params: seq<Json>, request: seq<Attribute>, response: Dict)
    returns (operation: Dict)
    ensures operation == OperationObject(description, params, request, response)
  {
    ghost var optParams: Option<Json> := None;
    ghost var optBody: Option<Json> := None;
    operation := [("description", Str(description))];
    if |params| > 0 {
      optParams := Some(Arr(params));
      PutParameters(Str(description), Arr(params));
      operation := Put(operation, "parameters", Arr(params));
    }
    assert operation == Partial(Str(description), optParams, None);
    if |request| > 0 {
      var properties, required := BodyFields(request);
      var body := FormBody(properties, required);
      optBody := Some(body);
      PutRequestBody(Str(description), optParams, body);
      operation := Put(operation, "requestBody", body);
    }
    var responses := Responses(response);
    PutResponses(Str(description), optParams, optBody, responses);
    operation := Put(operation, "responses", responses);
  }

  /** The operation object before "responses" is set. */
  function Partial(description: Json, params: Option<Json>, body: Option<Json>): Dict {
    [("description", description)]
    + (if params.Some? then [("parameters", params.value)] else [])
    + (if body.Some? then [("requestBody", body.value)] else [])
  }

  lemma PutParameters(description: Json, params: Json)
    ensures Put(Partial(description, None, None), "parameters", params) == Partial(description, Some(params), None)
  {
    assert "description"[0] == 'd' && "parameters"[0] == 'p';
    PutFresh(Partial(description, None, None), "parameters", params);
  }

  lemma PutRequestBody(description: Json, params: Option<Json>, body: Json)
    ensures Put(Partial(description, params, None), "requestBody", body) == Partial(description, params, Some(body))
  {
    assert "description"[0] == 'd' && "parameters"[0] == 'p' && "requestBody"[0] == 'r';
    var d := Partial(description, params, None);
    assert Keys(d) == ["description"] + (if params.Some? then ["parameters"] else []);
    PutFresh(d, "requestBody", body);
  }

  lemma PutResponses(description: Json, params: Option<Json>, body: Option<Json>, responses: Json)
    ensures Put(Partial(description, params, body), "responses", responses) == Layout(description, params, body, responses)
  {
    assert "description"[0] == 'd' && "parameters"[0] == 'p' && "requestBody"[2] == 'q' && "responses"[2] == 's';
    var d := Partial(description, params, body);
    assert Keys(d) == ["description"] + (if params.Some? then ["parameters"] else []) + (if body.Some? then ["requestBody"] else []);
    PutFresh(d, "responses", responses);
  }

  /** `conv_path`: the full path and the path item `{method: operation}`. */
  method ConvPath(path: string, verb: string, description: string, parameters: seq<Parameter>,
                  request: seq<Attribute>, response: Dict) returns (r: Outcome<(string, Dict)>)
    ensures r == PathItem(path, verb, description, parameters, request, response)
  {
    var key := ApiPrefix + path;
    var m := Lower(verb);
    var params: seq<Json> := [];
    if |parameters| > 0 {
      var list := ParamList(parameters);
      if list.Err? {
        return Err(list.error);
      }
      params := list.value;
    }
    assert ParamObjects(parameters) == Ok(params);
    var operation := BuildOperation(description, params, request, response);
    return Ok((key, [(m, Obj(operation))]));
  }

  // ----- Properties of the assembled path item -----

  /** The assembler fails exactly when a parameter has no type, reporting the first such parameter. */
  lemma PathItemFails(path: string, verb: string, description: string, parameters: seq<Parameter>,
                      request: seq<Attribute>, response: Dict)
    ensures var r := PathItem(path, verb, description, parameters, request, response);
      (r.Err? <==> exists i :: 0 <= i < |parameters| && parameters[i].schema.None?)
      && (r.Err? ==>
            exists i :: 0 <= i < |parameters| && parameters[i].schema.None? &&
              r.error == MissingType(parameters[i].name) && forall j :: 0 <= j < i ==> parameters[j].schema.Some?)
  {
  }

  /**
    The shape of a path item: the key is the path under "/api/v4"; one lower-cased method; the
    description is the title; "parameters" and "requestBody" are present exactly when there are
    parameters and body fields; "responses" is always there.
  */
  lemma PathItemShape(path: string, verb: string, description: string, parameters: seq<Parameter>,
                      request: seq<Attribute>, response: Dict)
    requires PathItem(path, verb, description, parameters, request, response).Ok?
    ensures var (key, item) := PathItem(path, verb, description, parameters, request, response).value;
      && key == ApiPrefix + path
      && |item| == 1 && item[0].0 == Lower(verb) && item[0].1.Obj?
      && item[0].1.members == OperationObject(description, ParamObjects(parameters).value, request, response)
      && |ParamObjects(parameters).value| == |parameters|
  {
  }

  /** The last body field with a given name decides that property, with its type cell verbatim. */
  lemma LastBodyFieldWins(front: seq<Attribute>, a: Attribute)
    ensures Get(BodyProperties(front + [a]), a.name) == Some(BodyProperty(a))
    ensures Get(BodyProperty(a).members, "type") == Some(OptStr(a.typ))
  {
    assert (front + [a])[..|front|] == front;
    PositionIs(BodyProperty(a).members, "type", 1);
  }

  /** A body field is listed as required exactly when its required cell is truthy. */
  lemma {:induction false} RequiredNamesAreTruthy(request: seq<Attribute>)
    ensures forall i :: 0 <= i < |request| && Truthy(request[i].required) ==> request[i].name in RequiredNames(request)
    ensures forall n :: n in RequiredNames(request) ==> exists i :: 0 <= i < |request| && request[i].name == n && Truthy(request[i].required)
    decreases |request|
  {
    if request != [] {
      var front := request[..|request| - 1];
      RequiredNamesAreTruthy(front);
      assert forall i :: 0 <= i < |front| ==> request[i] == front[i];
    }
  }

  /** "No" is a truthy required cell: such a field is still listed as required. */
  lemma NoStillRequired(name: string, typ: Option<string>, description: Option<string>)
    ensures RequiredNames([Attribute(name, typ, Some("No"), description)]) == [name]
  {
    assert [Attribute(name, typ, Some("No"), description)][..0] == [];
  }
}
