/**
  The type inferencer: describes a decoded example response by a JSON-schema-like dict, looking at
  the first element of each array and at every member of each object.
*/
module TypeInference {
  import opened Wrappers
  import opened JsonValues
  import opened Failures
  import opened Dicts

  /** `{"type": name}` */
  function TypeOnly(name: string): Dict {
    [("type", Str(name))]
  }

  /**
    The values the inferencer looks at and cannot describe: a float at an inspected position. An
    array is inspected through its first element only; an object through all its members.
  */
  predicate HasInspectedFloat(v: Json)
    decreases v
  {
    match v
    case Float(_) => true
    case Arr(items) => items != [] && HasInspectedFloat(items[0])
    case Obj(members) => exists i :: 0 <= i < |members| && HasInspectedFloat(members[i].1)
    case _ => false
  }

  /**
    `conv_ty`: a float fails; any other value gets a dict whose first key is "type". `null` is
    described as a string, an empty array as an array of strings, a non-empty array by its first
    element, an object by one property per member under the member's key.
  */
  function ConvTy(v: Json): (r: Outcome<Dict>)
    ensures r.Err? <==> HasInspectedFloat(v)
    ensures r.Err? ==> r.error.UnsupportedValue?
    ensures r.Ok? ==> |r.value| >= 1 && r.value[0] == ("type", Str(SchemaTypeName(v)))
    ensures v.Bool? || v.Int? || v.Str? || v.Null? ==> r == Ok([("type", Str(SchemaTypeName(v)))])
    ensures v == Arr([]) ==> r == Ok([("type", Str("array")), ("items", Obj(TypeOnly("string")))])
    ensures v.Arr? && v.items != [] && r.Ok? ==>
      r.value == [("type", Str("array")), ("items", Obj(ConvTy(v.items[0]).value))]
    decreases v, 1
  {
    match v
    case Bool(_) => Ok(TypeOnly("boolean"))
    case Int(_) => Ok(TypeOnly("integer"))
    case Str(_) => Ok(TypeOnly("string"))
    case Null => Ok(TypeOnly("string"))  // the source describes the string "string"
    case Float(_) => Err(UnsupportedValue(v))
    case Arr(items) =>
      var first := if items == [] then Ok(TypeOnly("string")) else ConvTy(items[0]);
      if first.Err? then Err(first.error)
      else Ok([("type", Str("array")), ("items", Obj(first.value))])
    case Obj(members) =>
      var properties := ConvMembers(v, members);
      if properties.Err? then Err(properties.error)
      else Ok([("type", Str("object")), ("properties", Obj(properties.value))])
  }

  /** The schema type each kind of value is given: the partner definition of `ConvTy`'s first entry. */
  function SchemaTypeName(v: Json): string {
    match v
    case Bool(_) => "boolean"
    case Int(_) => "integer"
    case Str(_) | Null | Float(_) => "string"
    case Arr(_) => "array"
    case Obj(_) => "object"
  }

  /**
    The comprehension over an object's members: one entry per member, same key and order, the first
    failing member's error otherwise.
  */
  function ConvMembers(parent: Json, members: seq<(string, Json)>): (r: Outcome<Dict>)
    requires parent.Obj? && forall i :: 0 <= i < |members| ==> members[i] in parent.members
    ensures r.Err? <==> exists i :: 0 <= i < |members| && HasInspectedFloat(members[i].1)
    ensures r.Err? ==> r.error.UnsupportedValue?
    decreases parent, 0, |members|
  {
    if members == [] then Ok([])
    else
      FloatAmongMembers(members);
      var head := ConvTy(members[0].1);
      if head.Err? then Err(head.error)
      else
        var tail := ConvMembers(parent, members[1..]);
        if tail.Err? then Err(tail.error)
        else Ok([(members[0].0, Obj(head.value))] + tail.value)
  }

  /** Some member has an inspected float exactly when the first one or one of the others has. */
  lemma FloatAmongMembers(members: seq<(string, Json)>)
    requires members != []
    ensures (exists i :: 0 <= i < |members| && HasInspectedFloat(members[i].1))
      <==> HasInspectedFloat(members[0].1) || exists i :: 0 <= i < |members| - 1 && HasInspectedFloat(members[1..][i].1)
  {
    if exists i :: 0 <= i < |members| && HasInspectedFloat(members[i].1) {
      var i :| 0 <= i < |members| && HasInspectedFloat(members[i].1);
      if i > 0 {
        assert members[1..][i - 1] == members[i];
      }
    }
    if exists i :: 0 <= i < |members| - 1 && HasInspectedFloat(members[1..][i].1) {
      var i :| 0 <= i < |members| - 1 && HasInspectedFloat(members[1..][i].1);
      assert members[i + 1] == members[1..][i];
    }
  }

  /**
    `parse_example_response`: no example gives the empty dict; otherwise the example is decoded by
    `decode` (which rejects the empty text, as `json.loads` does) and described.
  */
  function ParseExampleResponse(example: Option<string>, decode: string -> Option<Json>): (r: Outcome<Dict>)
    requires decode("") == None
    ensures example.None? ==> r == Ok([])
    ensures example == Some("") ==> r == Err(InvalidJson)
    ensures example.Some? && r.Ok? ==> r.value != []
  {
    match example
    case None => Ok([])
    case Some(text) =>
      match decode(text)
      case None => Err(InvalidJson)
      case Some(value) => ConvTy(value)
  }

  /** A non-empty array is described by its first element: what follows is never looked at. */
  lemma FirstElementDecides(first: Json, rest: seq<Json>)
    ensures ConvTy(Arr([first] + rest)) == ConvTy(Arr([first]))
  {
    assert ([first] + rest)[0] == first;
  }

  /** A float after the first element of an array does not make the inferencer fail. */
  lemma LaterFloatIgnored(first: Json, rest: seq<Json>)
    requires !HasInspectedFloat(first)
    ensures ConvTy(Arr([first] + rest + [Float("1.5")])).Ok?
  {
    assert ([first] + rest + [Float("1.5")])[0] == first;
  }

  /** `null` is described as a string is, and the empty array as an array of strings. */
  lemma NullAndEmptyArray(s: string)
    ensures ConvTy(Null) == ConvTy(Str(s))
    ensures ConvTy(Arr([])) == ConvTy(Arr([Str(s)]))
  {
    assert [Str(s)][0] == Str(s);
  }

  /** An object's properties have exactly the object's keys, in order, each described by its value. */
  lemma {:induction false} PropertiesFollowMembers(members: seq<(string, Json)>)
    requires ConvTy(Obj(members)).Ok?
    ensures var schema := ConvTy(Obj(members)).value;
      |schema| == 2 && schema[1].0 == "properties" && schema[1].1.Obj?
      && Keys(schema[1].1.members) == Keys(members)
      && forall i :: 0 <= i < |members| ==> schema[1].1.members[i].1.Obj? && ConvTy(members[i].1) == Ok(schema[1].1.members[i].1.members)
  {
    var parent := Obj(members);
    var properties := ConvMembers(parent, members);
    PropertiesAreDescriptions(parent, members);
    assert Keys(properties.value) == Keys(members);
  }

  lemma {:induction false} PropertiesAreDescriptions(parent: Json, members: seq<(string, Json)>)
    requires parent.Obj? && forall i :: 0 <= i < |members| ==> members[i] in parent.members
    requires ConvMembers(parent, members).Ok?
    ensures var props := ConvMembers(parent, members).value;
      && |props| == |members|
      && forall i :: 0 <= i < |members| ==>
        props[i].0 == members[i].0 && props[i].1.Obj? && ConvTy(members[i].1) == Ok(props[i].1.members)
    decreases |members|
  {
    if members != [] {
      PropertiesAreDescriptions(parent, members[1..]);
      var props := ConvMembers(parent, members).value;
      var tail := ConvMembers(parent, members[1..]).value;
      assert props == [(members[0].0, Obj(ConvTy(members[0].1).value))] + tail;
      forall i | 0 <= i < |members|
        ensures props[i].0 == members[i].0 && props[i].1.Obj? && ConvTy(members[i].1) == Ok(props[i].1.members)
      {
        if i > 0 {
          assert props[i] == tail[i - 1];
          assert members[i] == members[1..][i - 1];
        }
      }
    }
  }
}
