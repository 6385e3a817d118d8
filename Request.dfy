/**
 The request accessors of `GoogleAssistant`: `inputs`, `intent_string`,
 `conversation_params`, and what the cached `intent`, `arguments` and
 `conversation` compute on first use. The request is a hash with string keys.
 */
module Request {
  import opened Results
  import opened Json

  type Params = map<string, Value>

  /** The invoked intent (`Intent.new(intent_string)`); the `Intent` class
      itself is not part of this model, so it wraps the name unchanged. */
  datatype Intent = Intent(name: Value)

  /** One invocation argument (`Argument.new(argument)`), wrapped unchanged. */
  datatype Argument = Argument(raw: Value)

  /** The conversation context (`Conversation.new(conversation_params)`). */
  datatype Conversation = Conversation(raw: Value)

  /** The value under `key` when it is present and truthy (`params[key]` read
      for its truthiness). */
  predicate Given(params: Params, key: string) {
    key in params && Truthy(params[key])
  }

  /** `inputs`: a missing or falsy `inputs` raises. */
  function Inputs(params: Params): (r: Result<Value>)
    ensures r.Ok? <==> Given(params, "inputs")
    ensures r.Ok? ==> r.value == params["inputs"]
    ensures r.Err? ==> r.error == Raised("Missing inputs from request body")
  {
    if Given(params, "inputs") then Ok(params["inputs"])
    else Err(Raised("Missing inputs from request body"))
  }

  /** `inputs[0]`, as a hash. An empty or non-array `inputs`, or a first
      input that is not a hash, is a Ruby-level fault. */
  function FirstInput(params: Params): (r: Result<map<string, Value>>)
    ensures Inputs(params).Err? ==> r == Err(Inputs(params).error)
    ensures Inputs(params).Ok? ==>
      (r.Ok? <==> params["inputs"].Arr? && |params["inputs"].items| > 0 && params["inputs"].items[0].Obj?)
    ensures Inputs(params).Ok? && r.Err? ==> r.error == NoMethodError
    ensures r.Ok? ==> exists items :: params["inputs"] == Arr(items) && |items| > 0
                                       && items[0] == Obj(r.value)
  {
    match Inputs(params)
    case Err(e) => Err(e)
    case Ok(inputs) =>
      if inputs.Arr? && |inputs.items| > 0 && inputs.items[0].Obj? then Ok(inputs.items[0].fields)
      else Err(NoMethodError)
  }

  /** `intent_string`: `inputs[0]["intent"]`; a missing or falsy one raises. */
  function IntentString(params: Params): (r: Result<Value>)
    ensures Inputs(params).Err? ==> r == Err(Raised("Missing inputs from request body"))
    ensures r.Ok? ==> FirstInput(params).Ok? && "intent" in FirstInput(params).value
                      && r.value == FirstInput(params).value["intent"]
    ensures FirstInput(params).Ok? ==>
      (r.Ok? <==> "intent" in FirstInput(params).value && Truthy(FirstInput(params).value["intent"]))
    ensures FirstInput(params).Ok? && r.Err? ==> r.error == Raised("Missing intent from request body")
  {
    match FirstInput(params)
    case Err(e) => Err(e)
    case Ok(first) =>
      if "intent" in first && Truthy(first["intent"]) then Ok(first["intent"])
      else Err(Raised("Missing intent from request body"))
  }

  /** What `intent` computes on first use. */
  function IntentOf(params: Params): (r: Result<Intent>)
    ensures r.Ok? <==> IntentString(params).Ok?
    ensures r.Ok? ==> r.value.name == IntentString(params).value
    ensures r.Err? ==> r.error == IntentString(params).error
  {
    match IntentString(params)
    case Err(e) => Err(e)
    case Ok(name) => Ok(Intent(name))
  }

  /** A request whose first input names a truthy intent gives that intent,
      whatever else the request holds. */
  lemma WellFormedRequestIntent(params: Params, first: map<string, Value>, rest: seq<Value>)
    requires "inputs" in params && params["inputs"] == Arr([Obj(first)] + rest)
    requires "intent" in first && Truthy(first["intent"])
    ensures IntentOf(params) == Ok(Intent(first["intent"]))
  {
    assert FirstInput(params) == Ok(first);
  }

  /** `map { |argument| Argument.new(argument) }`. */
  function WrapArguments(raw: seq<Value>): (r: seq<Argument>)
    ensures |r| == |raw|
    ensures forall i :: 0 <= i < |raw| ==> r[i] == Argument(raw[i])
  {
    if raw == [] then [] else [Argument(raw[0])] + WrapArguments(raw[1..])
  }

  /** What `arguments` computes on first use: one `Argument` per element of
      `inputs[0]["arguments"]`, in order. A missing `arguments` is a
      Ruby-level fault (`nil.map`); so, in this model, is any other
      non-array value, although Ruby maps a hash pair by pair. */
  function ArgumentsOf(params: Params): (r: Result<seq<Argument>>)
    ensures Inputs(params).Err? ==> r == Err(Raised("Missing inputs from request body"))
    ensures FirstInput(params).Ok? ==>
      (r.Ok? <==> "arguments" in FirstInput(params).value && FirstInput(params).value["arguments"].Arr?)
    ensures r.Ok? ==> FirstInput(params).Ok? && "arguments" in FirstInput(params).value
    ensures r.Ok? ==> var raw := FirstInput(params).value["arguments"].items;
      |r.value| == |raw| && forall i :: 0 <= i < |raw| ==> r.value[i] == Argument(raw[i])
  {
    match FirstInput(params)
    case Err(e) => Err(e)
    case Ok(first) =>
      if "arguments" in first && first["arguments"].Arr? then Ok(WrapArguments(first["arguments"].items))
      else Err(NoMethodError)
  }

  /** `conversation_params`: the request's `conversation`, or `{}` when it is
      missing or falsy; never raises. */
  function ConversationParams(params: Params): (r: Value)
    ensures Given(params, "conversation") ==> r == params["conversation"]
    ensures !Given(params, "conversation") ==> r == Obj(map[])
    ensures Truthy(r)
  {
    if Given(params, "conversation") then params["conversation"] else Obj(map[])
  }

  /** What `conversation` computes on first use. */
  function ConversationOf(params: Params): (c: Conversation)
    ensures Given(params, "conversation") ==> c.raw == params["conversation"]
    ensures !Given(params, "conversation") ==> c.raw == Obj(map[])
  {
    Conversation(ConversationParams(params))
  }
}
