# JSON-RPC 2.0 request builder (simple-json-rpc client), modelled in Dafny

This project models `AbstractBuilder`, the base of the simple-json-rpc client
builders. It builds JSON-RPC 2.0 request objects as Jackson trees:

- by-position parameters as a JSON array;
- by-name parameters as a JSON object;
- the request object itself, with `"jsonrpc": "2.0"`, the method name, the
  parameters and, unless the id is the JSON null node, the id;
- the reverse step for ids: a JSON id node is turned back into a Java `Long`,
  `Integer` or `String`.

The builder also stores a `checkVersion` flag, which is set when it is
constructed and can be changed later.

The model has two modules:

- `JsonNodes` (`json_nodes.dfy`) covers the Jackson trees.
  - `Json` is a datatype with one constructor for each of eight Jackson node
    kinds: null, boolean, int, long, double, text, array and object. Other
    Jackson kinds are not represented (see "## Left out").
  - `int32` and `int64` are newtypes for Java's `int` and `long`.
  - An object node's contents are a sequence of key/value pairs in insertion
    order, as Jackson's `LinkedHashMap` keeps them.
  - `SetField` is `ObjectNode.set`/`put`. It replaces the value of a key that
    is already present and keeps that key's position (`SetFieldInPlace`). A
    new key goes last.
- `Builder` (`abstract_builder.dfy`) covers the builder itself.
  - The protocol constants are `VERSION_2_0`, `RESULT`, `ERROR`, `JSONRPC`,
    `ID`, `METHOD` and `PARAMS`.
  - `AbstractBuilder<T, V>` is a class. Its mutable field is `checkVersion`.
    Its `const` fields are `transport` (of an opaque type `T`) and `mapper`.
  - `mapper` holds Jackson's `valueToTree` as a given function `V -> Json`.
    Everything about the parameters is stated relative to that function.
  - `Request` and `NodeValue` report the two `IllegalArgumentException`s as
    `Err(MethodNotSet)` and `Err(WrongId(node))`.
  - `IsRequestObject` and `IsNotification` restate the Request object and the
    Notification from sections 4 and 4.1 of the JSON-RPC 2.0 Specification,
    independently of the builder.

In the source, `arrayParams`, `objectParams` and `request` fill a freshly
created Jackson node with successive `add`/`set`/`put` calls. In the model,
each is a method that builds the field or element sequence step by step in a
local variable and returns the finished node as a value. `objectParams` walks
the keys of a Java `Map`, whose order is unspecified. The model's loop
therefore picks the keys in any order (`:|`), and its contract holds for
every order.

## Model

| member | source | states |
|---|---|---|
| `Builder.AbstractBuilder.constructor` | client/src/main/java/com/github/arteam/simplejsonrpc/client/builder/AbstractBuilder.java:41-43 | the two-argument constructor stores the transport and the mapper and turns version checking on |
| `Builder.AbstractBuilder.WithCheckVersion` | client/src/main/java/com/github/arteam/simplejsonrpc/client/builder/AbstractBuilder.java:45-49 | the three-argument constructor stores the transport, the mapper and the given flag |
| `Builder.AbstractBuilder.SetCheckVersion` | client/src/main/java/com/github/arteam/simplejsonrpc/client/builder/AbstractBuilder.java:114-116 | the setter makes the flag equal to its argument and may change nothing else of the builder (its frame is the `checkVersion` field alone; `transport` and `mapper` are `const`) |
| `Builder.AbstractBuilder.ArrayParams` | client/src/main/java/com/github/arteam/simplejsonrpc/client/builder/AbstractBuilder.java:57-63 | the result is an array with exactly as many elements as there are values, and element i is `valueToTree` of value i, so order is kept, nothing is dropped, deduplicated or padded, and no values give an empty array |
| `Builder.AbstractBuilder.ObjectParams` | client/src/main/java/com/github/arteam/simplejsonrpc/client/builder/AbstractBuilder.java:71-77 | whatever the key order, the result is an object whose key set is the map's key set, with no repeated key, one field per map entry, and each key holding `valueToTree` of its value |
| `Builder.AbstractBuilder.Request` | client/src/main/java/com/github/arteam/simplejsonrpc/client/builder/AbstractBuilder.java:87-100 | fails with "method is not set" exactly when the method name is empty, for every id and params; otherwise the fields are `jsonrpc`="2.0", `method`, `params` (the given node unchanged) in that order, then `id` as the last field exactly when the id is not null; that gives 3 fields for a null id and 4 otherwise, with no repeated key; the result is a JSON-RPC 2.0 section 4.1 notification exactly when the id is null and params is structured, and a JSON-RPC 2.0 section 4 request object exactly when params is structured and the id is not boolean |
| `Builder.NamedParamsStep` | client/src/main/java/com/github/arteam/simplejsonrpc/client/builder/AbstractBuilder.java:73-75 | one iteration of the named-params loop (convert one remaining key's value and set it) keeps the loop invariant: the keys done are the map's keys minus those still to do, no key repeats, and every key done holds its value's conversion |
| `Builder.FieldPerEntry` | client/src/main/java/com/github/arteam/simplejsonrpc/client/builder/AbstractBuilder.java:71-77 | named params whose key set is the map's key set, with no repeated key, have exactly one field per map entry |
| `Builder.FixedFieldsLookups` | client/src/main/java/com/github/arteam/simplejsonrpc/client/builder/AbstractBuilder.java:92-95 | the three members every request starts with ("jsonrpc", "method", "params") are distinct keys, and each holds the "2.0" text, the method name and the params node respectively |
| `Builder.RequestFieldsLookups` | client/src/main/java/com/github/arteam/simplejsonrpc/client/builder/AbstractBuilder.java:92-99 | the members the builder puts, with "id" appended for a non-null id, have no repeated key, their keys are the three fixed ones plus "id" exactly for a non-null id, and "id" holds the given id when present and is absent otherwise |
| `Builder.RequestFieldsConform` | client/src/main/java/com/github/arteam/simplejsonrpc/client/builder/AbstractBuilder.java:92-99 | those members make a JSON-RPC 2.0 section 4 request object exactly when params is an array or object and the id is not boolean, and a JSON-RPC 2.0 section 4.1 notification exactly when, in addition, the id is null |
| `Builder.NodeValue` | client/src/main/java/com/github/arteam/simplejsonrpc/client/builder/AbstractBuilder.java:102-112 | succeeds exactly on long, int and text nodes; a long node always gives a long; every success gives the value that encodes back to the same node; every other kind (null, boolean, double, array, object) fails with "wrong id" carrying that node |
| `Builder.IdRoundTrip` | client/src/main/java/com/github/arteam/simplejsonrpc/client/builder/AbstractBuilder.java:103-110 | decoding the node made from a `Long`, `Integer` or `String` id gives back that id and its type |
| `JsonNodes.SetField` | client/src/main/java/com/github/arteam/simplejsonrpc/client/builder/AbstractBuilder.java:92-98 | `ObjectNode.set`/`put` as the request and named params use it: afterwards the key holds the value and every other key keeps its value; the key set gains the key; a new key is appended last; an existing key keeps its field count; no repeated key is created |
| `JsonNodes.SetFieldInPlace` | client/src/main/java/com/github/arteam/simplejsonrpc/client/builder/AbstractBuilder.java:74 | in a field list without repeated keys, setting a key that is already present replaces that key's field at its own position and leaves every other field where it was |
| `JsonNodes.Get` | client/src/main/java/com/github/arteam/simplejsonrpc/client/builder/AbstractBuilder.java:74 | lookup in the object node that this line fills (not the `Map.get` on the params map, which the model writes as `params[key]`): it finds a value exactly when the key is among the object's keys |
| `JsonNodes.DistinctKeysCount` | client/src/main/java/com/github/arteam/simplejsonrpc/client/builder/AbstractBuilder.java:71-77 | an object node without repeated keys has one field per key, which is why the named params have as many fields as the map has entries |
| `JsonNodes.SameLookupsPermutation` | client/src/main/java/com/github/arteam/simplejsonrpc/client/builder/AbstractBuilder.java:73-75 | two objects without repeated keys that agree on every key's value hold the same fields up to order, so the map's iteration order changes only the field order of the named params |

## Left out

- Transport.java is not part of this model. It is the I/O boundary: `pass` sends text and receives text, and its two default overloads only forward to it. The builder holds the transport as an opaque `const`.
- Jackson's own code is not modelled: `createArrayNode`, `createObjectNode`, `valueToTree` and printing or parsing JSON text. `valueToTree` is a given function, and an exception it might throw for an unconvertible value is not modelled.
- The response side is not in this file: checking `"jsonrpc"` when `checkVersion` is on, decoding results and errors (the `RESULT` and `ERROR` constants), and assembling batches. Only the flag's storage is modelled.
- Java `null` references are not modelled. The source would fail with a null-pointer exception for a `null` method name or id, and a `null` element value becomes a null node in Jackson, which the given `valueToTree` covers. Request always sets "params", so it is never omitted.
- Jackson node kinds outside the eight above are not represented: short, float, big-integer, big-decimal, binary, POJO and missing nodes. The source still handles them. `arrayParams` and `objectParams` store whatever `valueToTree` returns, which is a big-integer, big-decimal or binary node for a `BigInteger`, `BigDecimal` or `byte[]` value. `request` sets any such value node as the id, because it tests only `isNull`. `nodeValue` refuses every one of them with "Wrong id", as it refuses a double node.
- `JDouble` carries a mathematical `real`, because no floating-point arithmetic happens in the core.
- Builder.AbstractBuilder.Request: the params node is taken as a value. Jackson stores a reference to the caller's node, so a later change to that node would show in the request. That aliasing is not captured.
- Builder.NodeValue: `isLong` holds only for long nodes and `isInt` only for int nodes. The two tests therefore never both hold, and the long-before-int order cannot be observed in the model, although the model keeps it.
- Thread safety of the mutable `checkVersion` flag is not modelled, because it is a concurrency concern.
