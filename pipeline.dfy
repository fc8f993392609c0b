/**
  The top level: classify the document into operations, turn each into a path item, and merge the
  path items into one `paths` object keyed by the full API path.
*/
module Pipeline {
  import opened Wrappers
  import opened Text
  import opened JsonValues
  import opened Failures
  import opened Dicts
  import opened Markdown
  import opened Sections
  import opened RequestShape
  import opened Parameters
  import opened TypeInference
  import opened Assembler

  /** The `paths` object: each full path with its path item (method to operation object). */
  type PathMap = seq<(string, Dict)>

  /** A JSON decoder in the role of `json.loads`: it must reject the empty text. */
  type Decoder = decode: string -> Option<Json> | decode("") == None witness (s: string) => None

  /**
    One merge step: a new path is added last; for a known path, `operations[key] |= value` puts the
    new methods into the existing path item.
  */
  function MergePath(paths: PathMap, key: string, item: Dict): (r: PathMap)
    ensures Keys(r) == if key in Keys(paths) then Keys(paths) else Keys(paths) + [key]
    ensures forall k :: k != key ==> Get(r, k) == Get(paths, k)
  {
    match Get(paths, key)
    case Some(existing) => Put(paths, key, Update(existing, item))
    case None => Put(paths, key, item)
  }

  /** The methods of the merged path item are those it had together with the new ones. */
  lemma MergeUnitesMethods(paths: PathMap, key: string, item: Dict)
    ensures Get(MergePath(paths, key, item), key).Some?
    ensures var merged := Get(MergePath(paths, key, item), key).value;
      forall m :: m in Keys(merged) <==> m in Keys(item) || (Get(paths, key).Some? && m in Keys(Get(paths, key).value))
  {
    match Get(paths, key)
    case Some(existing) =>
      UpdateKeys(existing, item);
    case None =>
  }

  /**
    A method the new path item has replaces the old operation object wholesale; a method it does
    not have keeps its old object.
  */
  lemma MergeReplacesMethods(paths: PathMap, key: string, item: Dict)
    requires Distinct(Keys(item))
    ensures var merged := Get(MergePath(paths, key, item), key).value;
      && (forall m :: m in Keys(item) ==> Get(merged, m) == Get(item, m))
      && (Get(paths, key).Some? ==> forall m :: m !in Keys(item) ==> Get(merged, m) == Get(Get(paths, key).value, m))
  {
    match Get(paths, key)
    case Some(existing) =>
      forall m | m in Keys(item) ensures Get(Update(existing, item), m) == Get(item, m) {
        UpdateTakesNew(existing, item, m);
      }
      forall m | m !in Keys(item) ensures Get(Update(existing, item), m) == Get(existing, m) {
        UpdateKeepsOthers(existing, item, m);
      }
    case None =>
  }

  /** Every key of the map is a full API path. */
  predicate Rooted(paths: PathMap) {
    forall k :: k in Keys(paths) ==> StartsWith(k, ApiPrefix)
  }

  /**
    The steps of the top-level loop for one operation, in the order the source runs them: the URI,
    its path parameters, the form fields, the parameter split, the example response, the assembler.
  */
  function OperationEntry(op: Operation, decode: Decoder): (r: Outcome<(string, Dict)>)
    requires op.uri.Some?
    ensures r.Ok? ==> StartsWith(r.value.0, ApiPrefix)
  {
    match ParseUri(op.uri.value)
    case Err(e) => Err(e)
    case Ok((verb, path)) =>
      var split := SplitAttributes(op.attribute, PathParams(path), FormFields(op.exampleRequest));
      match ParseExampleResponse(op.exampleResponse, decode)
      case Err(e) => Err(e)
      case Ok(response) =>
        var item := PathItem(path, verb, op.title, split.0, split.1, response);
        assert item.Ok? ==> item.value.0[..|ApiPrefix|] == ApiPrefix;
        item
  }

  /** The operations merged one by one into `paths`; the first failure aborts the run. */
  function MergeAll(paths: PathMap, ops: seq<Operation>, decode: Decoder): (r: Outcome<PathMap>)
    requires AllEmittable(ops)
    ensures Rooted(paths) && r.Ok? ==> Rooted(r.value)
    ensures Distinct(Keys(paths)) && r.Ok? ==> Distinct(Keys(r.value))
    decreases |ops|
  {
    if ops == [] then Ok(paths)
    else
      var entry := OperationEntry(ops[0], decode);
      if entry.Err? then Err(entry.error)
      else
        var merged := MergePath(paths, entry.value.0, entry.value.1);
        MergeKeepsKeys(paths, entry.value.0, entry.value.1);
        EmittableTail(ops);
        MergeAll(merged, ops[1..], decode)
  }

  lemma EmittableTail(ops: seq<Operation>)
    requires AllEmittable(ops) && ops != []
    ensures AllEmittable(ops[1..])
  {
    assert forall i :: 0 <= i < |ops| - 1 ==> ops[1..][i] == ops[i + 1];
  }

  /** A merge keeps the map's keys distinct, and rooted when the new key is. */
  lemma MergeKeepsKeys(paths: PathMap, key: string, item: Dict)
    ensures Distinct(Keys(paths)) ==> Distinct(Keys(MergePath(paths, key, item)))
    ensures Rooted(paths) && StartsWith(key, ApiPrefix) ==> Rooted(MergePath(paths, key, item))
  {
  }

  /** The whole conversion: the classifier's failure comes first, then the operations in order. */
  function ConvertSpec(nodes: seq<Node>, decode: Decoder): Outcome<PathMap> {
    match Scan(nodes)
    case Err(e) => Err(e)
    case Ok(ops) => MergeAll([], ops, decode)
  }

  /** The script's main loop over the classified operations. */
  method Convert(nodes: seq<Node>, decode: Decoder) returns (r: Outcome<PathMap>)
    ensures r == ConvertSpec(nodes, decode)
  {
    var scanned := ParseOperations(nodes);
    if scanned.Err? {
      return Err(scanned.error);
    }
    var ops := scanned.value;
    var operations: PathMap := [];
    for i := 0 to |ops|
      invariant MergeAll([], ops, decode) == MergeAll(operations, ops[i..], decode)
    {
      var op := ops[i];
      ghost var rest := ops[i..];
      assert rest[0] == op && rest[1..] == ops[i + 1..];
      assert Emittable(op);
      var uri := ParseUri(op.uri.value);
      if uri.Err? {
        return Err(uri.error);
      }
      var (verb, path) := uri.value;
      var paths := ParsePath(path);
      var forms := ParseExampleRequest(op.exampleRequest);
      var params, body := ParseParameter(op.attribute, paths, forms);
      var response := ParseExampleResponse(op.exampleResponse, decode);
      if response.Err? {
        return Err(response.error);
      }
      var entry := ConvPath(path, verb, op.title, params, body, response.value);
      if entry.Err? {
        return Err(entry.error);
      }
      var (key, value) := entry.value;
      assert OperationEntry(op, decode) == Ok((key, value));
      if Get(operations, key).Some? {
        operations := Put(operations, key, Update(Get(operations, key).value, value));
      } else {
        operations := Put(operations, key, value);
      }
    }
    assert ops[|ops|..] == [];
    return Ok(operations);
  }

  /** A document without a `##` or `###` heading converts to no paths at all. */
  lemma NoSectionsNoPaths(nodes: seq<Node>, decode: Decoder)
    requires NoSectionHeading(nodes)
    ensures ConvertSpec(nodes, decode) == Ok([])
  {
    NoSectionNoOperations(nodes);
  }

  /** Every converted path is under "/api/v4", and no path occurs twice. */
  lemma ConvertedPathsRooted(nodes: seq<Node>, decode: Decoder)
    requires ConvertSpec(nodes, decode).Ok?
    ensures Rooted(ConvertSpec(nodes, decode).value)
    ensures Distinct(Keys(ConvertSpec(nodes, decode).value))
  {
  }
}
