/** The JSON-RPC 2.0 request builder shared by every client-side builder.

    It assembles request objects (section 4 of the JSON-RPC 2.0
    Specification), notifications (JSON-RPC 2.0 section 4.1) and the two parameter
    structures (JSON-RPC 2.0 section 4.2), and decodes a request id back into a Java value.
    Jackson's `ObjectMapper` is reduced to its one conversion the builder
    uses, `valueToTree`, which the model takes as a given function.
 */
module Builder {
  import opened JsonNodes

  // Protocol constants
  const VERSION_2_0: string := "2.0"
  const RESULT: string := "result"
  const ERROR: string := "error"
  const JSONRPC: string := "jsonrpc"
  const ID: string := "id"
  const METHOD: string := "method"
  const PARAMS: string := "params"

  /** The two `IllegalArgumentException`s the builder throws. */
  datatype BuildError =
    | MethodNotSet       // "Method is not set"
    | WrongId(id: Json)  // "Wrong id=" followed by the node

  datatype Result<T> = Ok(value: T) | Err(error: BuildError)

  /** The Java value `nodeValue` returns: a boxed `Long`, `Integer` or a `String`. */
  datatype IdValue = LongId(l: int64) | IntId(i: int32) | TextId(s: string)

  /** The part of Jackson's `ObjectMapper` the builder relies on.  `valueToTree`
      stands for the node that ends up stored, so a Java `null`, which Jackson
      stores as a null node, is covered by whatever the function gives for it. */
  datatype Mapper<!V> = Mapper(valueToTree: V -> Json)

  /** The node Jackson's `valueToTree` makes of a boxed `Long`, `Integer` or `String`. */
  function IdNode(x: IdValue): ValueNode
  {
    match x
    case LongId(l) => JLong(l)
    case IntId(i) => JInt(i)
    case TextId(s) => JText(s)
  }

  /** An id as JSON-RPC 2.0 section 4 allows it: a string, a number or null. */
  predicate IsIdKind(j: Json)
  {
    j.JNull? || j.JText? || j.JInt? || j.JLong? || j.JDouble?
  }

  /** A request object as section 4 of the JSON-RPC 2.0 Specification
      describes it: "jsonrpc" is exactly "2.0", "method" is a string, "params"
      (which may be omitted) is a structured value, "id" (which may be
      omitted) is a string, a number or null.  That section lists these
      members without forbidding others; allowing no other member is this
      model's stricter reading, which the builder meets since it adds none. */
  predicate IsRequestObject(j: Json)
  {
    && j.JObject?
    && DistinctKeys(j.fields)
    && KeysOf(j.fields) <= {JSONRPC, METHOD, PARAMS, ID}
    && Get(j.fields, JSONRPC) == Some(JText(VERSION_2_0))
    && Get(j.fields, METHOD).Some? && Get(j.fields, METHOD).value.JText?
    && (Get(j.fields, PARAMS).Some? ==> Get(j.fields, PARAMS).value.IsContainer())
    && (Get(j.fields, ID).Some? ==> IsIdKind(Get(j.fields, ID).value))
  }

  /** A notification (JSON-RPC 2.0 section 4.1): a request object without an
      "id" member. */
  predicate IsNotification(j: Json)
  {
    IsRequestObject(j) && ID !in KeysOf(j.fields)
  }

  class AbstractBuilder<T, V> {
    /** Whether responses must carry "jsonrpc": "2.0"; the check itself is
        made by the response-handling code, which is not part of this model. */
    var checkVersion: bool

    /** Transport for passing a request text and getting a response text. */
    const transport: T

    /** Jackson mapper for JSON processing. */
    const mapper: Mapper<V>

    constructor (transport: T, mapper: Mapper<V>)
      ensures this.transport == transport && this.mapper == mapper
      ensures checkVersion
    {
      this.transport := transport;
      this.mapper := mapper;
      this.checkVersion := true;
    }

    constructor WithCheckVersion(transport: T, mapper: Mapper<V>, checkVersion: bool)
      ensures this.transport == transport && this.mapper == mapper
      ensures this.checkVersion == checkVersion
    {
      this.transport := transport;
      this.mapper := mapper;
      this.checkVersion := checkVersion;
    }

    /** Java's `checkVersion(boolean)` setter. */
    method SetCheckVersion(checkVersion: bool)
      modifies this`checkVersion
      ensures this.checkVersion == checkVersion
    {
      this.checkVersion := checkVersion;
    }

    /** By-position parameters (JSON-RPC 2.0 section 4.2): one array element per value,
        in the values' order, each converted on its own. */
    method ArrayParams(values: seq<V>) returns (node: Json)
      ensures node.JArray?
      ensures |node.items| == |values|
      ensures forall i :: 0 <= i < |values| ==> node.items[i] == mapper.valueToTree(values[i])
    {
      var items: seq<Json> := [];
      for i := 0 to |values|
        invariant |items| == i
        invariant forall k :: 0 <= k < i ==> items[k] == mapper.valueToTree(values[k])
      {
        items := items + [mapper.valueToTree(values[i])];
      }
      node := JArray(items);
    }

    /** By-name parameters (JSON-RPC 2.0 section 4.2): one member per key of the map, each
        holding the key's converted value.  The map's key order is not
        specified, so the loop takes the keys in any order. */
    method ObjectParams(params: map<string, V>) returns (node: Json)
      ensures node.JObject?
      ensures KeysOf(node.fields) == params.Keys
      ensures DistinctKeys(node.fields) && |node.fields| == |params|
      ensures forall k :: k in params ==> Get(node.fields, k) == Some(mapper.valueToTree(params[k]))
    {
      var fields: Fields := [];
      var todo := params.Keys;
      while todo != {}
        invariant NamedParamsSoFar(fields, params, mapper, todo)
        decreases todo
      {
        var key :| key in todo;
        NamedParamsStep(fields, params, mapper, todo, key);
        fields, todo := SetField(fields, key, mapper.valueToTree(params[key])), todo - {key};
      }
      FieldPerEntry(fields, params);
      node := JObject(fields);
    }

    /** A request object: "jsonrpc", "method" and "params" in that order, then
        "id" unless the id is the null node.  An empty method name is refused
        before anything is built. */
    method Request(id: ValueNode, methodName: string, params: Json) returns (r: Result<Json>)
      ensures r.Err? <==> methodName == []
      ensures r.Err? ==> r.error == MethodNotSet
      ensures r.Ok? ==> r.value.JObject?
      ensures r.Ok? ==> |r.value.fields| == if id.IsNull() then 3 else 4
      ensures r.Ok? ==> r.value.fields[..3] == [(JSONRPC, JText(VERSION_2_0)), (METHOD, JText(methodName)), (PARAMS, params)]
      ensures r.Ok? && !id.IsNull() ==> r.value.fields[3] == (ID, id)
      ensures r.Ok? ==> DistinctKeys(r.value.fields)
      ensures r.Ok? ==> Get(r.value.fields, ID) == if id.IsNull() then None else Some(id)
      ensures r.Ok? ==> (IsNotification(r.value) <==> id.IsNull() && params.IsContainer())
      ensures r.Ok? ==> (IsRequestObject(r.value) <==> params.IsContainer() && !id.JBool?)
    {
      if methodName == [] {
        return Err(MethodNotSet);
      }
      var fields: Fields := [];
      fields := SetField(fields, JSONRPC, JText(VERSION_2_0));
      fields := SetField(fields, METHOD, JText(methodName));
      fields := SetField(fields, PARAMS, params);
      if !id.IsNull() {
        fields := SetField(fields, ID, id);
      }
      RequestFieldsLookups(id, methodName, params, fields);
      RequestFieldsConform(id, methodName, params, fields);
      r := Ok(JObject(fields));
    }
  }

  /** The named-params loop's invariant: the keys still to do are the map's
      keys not yet in `fields`, no key repeats, and every key done holds its
      value's conversion. */
  predicate NamedParamsSoFar<V>(fields: Fields, params: map<string, V>, mapper: Mapper<V>, todo: set<string>)
  {
    && todo <= params.Keys
    && KeysOf(fields) == params.Keys - todo
    && DistinctKeys(fields)
    && forall k :: k in KeysOf(fields) ==> k in params && Get(fields, k) == Some(mapper.valueToTree(params[k]))
  }

  /** One step of the named-params loop keeps its invariant. */
  lemma NamedParamsStep<V>(fields: Fields, params: map<string, V>, mapper: Mapper<V>, todo: set<string>, key: string)
    requires NamedParamsSoFar(fields, params, mapper, todo) && key in todo
    ensures NamedParamsSoFar(SetField(fields, key, mapper.valueToTree(params[key])), params, mapper, todo - {key})
  {
  }

  /** The members of a built request, in the order the builder puts them:
      no key repeats, the keys are the three fixed ones plus "id" for a
      non-null id, and each key holds what the builder put under it. */
  lemma RequestFieldsLookups(id: ValueNode, methodName: string, params: Json, fields: Fields)
    requires fields == [(JSONRPC, JText(VERSION_2_0)), (METHOD, JText(methodName)), (PARAMS, params)]
                       + (if id.IsNull() then [] else [(ID, id)])
    ensures DistinctKeys(fields)
    ensures KeysOf(fields) == {JSONRPC, METHOD, PARAMS} + (if id.IsNull() then {} else {ID})
    ensures Get(fields, JSONRPC) == Some(JText(VERSION_2_0))
    ensures Get(fields, METHOD) == Some(JText(methodName))
    ensures Get(fields, PARAMS) == Some(params)
    ensures Get(fields, ID) == if id.IsNull() then None else Some(id)
  {
    var three := [(JSONRPC, JText(VERSION_2_0)), (METHOD, JText(methodName)), (PARAMS, params)];
    FixedFieldsLookups(methodName, params);
    if id.IsNull() {
      assert fields == three;
    } else {
      assert ID != JSONRPC && ID != METHOD && ID != PARAMS;
      assert fields == SetField(three, ID, id);
    }
  }

  /** The three members every request starts with. */
  lemma FixedFieldsLookups(methodName: string, params: Json)
    ensures var three := [(JSONRPC, JText(VERSION_2_0)), (METHOD, JText(methodName)), (PARAMS, params)];
      && DistinctKeys(three)
      && KeysOf(three) == {JSONRPC, METHOD, PARAMS}
      && Get(three, JSONRPC) == Some(JText(VERSION_2_0))
      && Get(three, METHOD) == Some(JText(methodName))
      && Get(three, PARAMS) == Some(params)
  {
    assert METHOD != JSONRPC && PARAMS != JSONRPC && PARAMS != METHOD;
    var one := SetField([], JSONRPC, JText(VERSION_2_0));
    var two := SetField(one, METHOD, JText(methodName));
    assert SetField(two, PARAMS, params) == [(JSONRPC, JText(VERSION_2_0)), (METHOD, JText(methodName)), (PARAMS, params)];
  }

  /** A field list with the members the builder puts is a JSON-RPC 2.0 section 4 request
      object exactly when params is structured and the id is not boolean, and
      a notification exactly when in addition the id is null. */
  lemma RequestFieldsConform(id: ValueNode, methodName: string, params: Json, fields: Fields)
    requires DistinctKeys(fields)
    requires KeysOf(fields) == {JSONRPC, METHOD, PARAMS} + (if id.IsNull() then {} else {ID})
    requires Get(fields, JSONRPC) == Some(JText(VERSION_2_0))
    requires Get(fields, METHOD) == Some(JText(methodName))
    requires Get(fields, PARAMS) == Some(params)
    requires Get(fields, ID) == if id.IsNull() then None else Some(id)
    ensures IsNotification(JObject(fields)) <==> id.IsNull() && params.IsContainer()
    ensures IsRequestObject(JObject(fields)) <==> params.IsContainer() && !id.JBool?
  {
  }

  /** Named params without repeated keys and with the map's key set have one
      field per map entry. */
  lemma FieldPerEntry<V>(fields: Fields, params: map<string, V>)
    requires DistinctKeys(fields) && KeysOf(fields) == params.Keys
    ensures |fields| == |params|
  {
    DistinctKeysCount(fields);
    assert |params.Keys| == |params|;
  }

  /** Java's `nodeValue`: a long node gives its `long`, otherwise an int node
      its `int`, otherwise a text node its `String`; any other node is
      refused.  It reads no state of the builder.  A value it returns is
      exactly the one the node was made from. */
  function NodeValue(id: Json): (r: Result<IdValue>)
    ensures r.Ok? <==> id.IsLong() || id.IsInt() || id.IsTextual()
    ensures r.Ok? ==> IdNode(r.value) == id
    ensures id.IsLong() ==> r.Ok? && r.value.LongId?
    ensures r.Err? ==> r.error == WrongId(id)
  {
    if id.IsLong() then Ok(LongId(id.l))
    else if id.IsInt() then Ok(IntId(id.i))
    else if id.IsTextual() then Ok(TextId(id.s))
    else Err(WrongId(id))
  }

  /** Decoding the node made from a `Long`, `Integer` or `String` id gives that id back. */
  lemma IdRoundTrip(x: IdValue)
    ensures NodeValue(IdNode(x)) == Ok(x)
  {
  }
}
