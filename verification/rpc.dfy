/** The JSON-RPC client of `src/rpc.js`: how `getMethodFromRPC` builds its
    request and decides between returning the node's `result` and throwing.
    The HTTP POST itself is a parameter (`Transport`). */
module Rpc {
  import opened Wrappers
  import opened JsValues

  /** The request body posted to the node. */
  datatype RpcRequest = RpcRequest(jsonrpc: string, methodName: string, params: seq<JsValue>, id: string)

  /** The node's response body; a missing member is `Undefined`. */
  datatype RpcResponse = RpcResponse(result: JsValue, error: JsValue)

  /** One POST round trip to the node, or the transport failure it raised. */
  type Transport = RpcRequest -> Result<RpcResponse, Error>

  const SeparatorText := ", used params for RPC call : "

  /** The value of an environment variable as JavaScript sees it. */
  function EnvValue(env: Option<string>): JsValue {
    match env
    case None => Undefined
    case Some(s) => Str(s)
  }

  /** `process.env.RPC_VERSION || "2.0"`. */
  function RpcVersion(env: Option<string>): (v: string)
    ensures env.Some? && env.value != "" ==> v == env.value
    ensures env.None? || env.value == "" ==> v == "2.0"
  {
    ToJsString(LogicalOr(EnvValue(env), Str("2.0")))
  }

  /** The request `getMethodFromRPC(method, params)` sends. */
  function Envelope(env: Option<string>, methodName: string, params: seq<JsValue>): (q: RpcRequest)
    ensures q.jsonrpc == RpcVersion(env) && q.id == "0"
    ensures q.methodName == methodName && q.params == params
  {
    RpcRequest(RpcVersion(env), methodName, params, "0")
  }

  /** `${r.error.message}, used params for RPC call : ${params}`. */
  function ErrorText(error: JsValue, params: seq<JsValue>): string
    requires Truthy(error)
  {
    ToJsString(Property(error, "message").value) + SeparatorText + ToJsString(Arr(params))
  }

  /** The decision at the end of `getMethodFromRPC`: throw when the result is
      falsy and an error is present, otherwise hand back the result as is. */
  function Classify(resp: RpcResponse, params: seq<JsValue>): (r: Result<JsValue, Error>)
    ensures r.Failure? <==> !Truthy(resp.result) && Truthy(resp.error)
    ensures r.Success? ==> r.value == resp.result
    ensures r.Failure? ==> r.error.PlainError?
    ensures r.Failure? ==>
      var upstream := ToJsString(Property(resp.error, "message").value);
      var m := r.error.message;
      && |m| == |upstream| + |SeparatorText| + |ToJsString(Arr(params))|
      && m[..|upstream|] == upstream
      && m[|upstream|..|upstream| + |SeparatorText|] == SeparatorText
      && m[|upstream| + |SeparatorText|..] == ToJsString(Arr(params))
  {
    if !Truthy(resp.result) && Truthy(resp.error) then Failure(PlainError(ErrorText(resp.error, params)))
    else Success(resp.result)
  }

  /** `getMethodFromRPC(method, params)`: post the envelope, propagate a
      transport failure, classify the response. */
  function GetMethodFromRpc(env: Option<string>, methodName: string, params: seq<JsValue>, transport: Transport)
    : (r: Result<JsValue, Error>)
    ensures var answer := transport(RpcRequest(RpcVersion(env), methodName, params, "0"));
      && (answer.Failure? ==> r == Failure(answer.error))
      && (answer.Success? ==> r == Classify(answer.value, params))
  {
    var resp :- transport(Envelope(env, methodName, params));
    Classify(resp, params)
  }

  /** The call consults the node about one request only: two transports that
      answer the envelope `{jsonrpc: RPC_VERSION, method, params, id: "0"}`
      alike make the call behave alike, whatever they answer otherwise. */
  lemma OnlyTheEnvelopeMatters(env: Option<string>, methodName: string, params: seq<JsValue>,
                               t1: Transport, t2: Transport)
    requires t1(RpcRequest(RpcVersion(env), methodName, params, "0")) == t2(RpcRequest(RpcVersion(env), methodName, params, "0"))
    ensures GetMethodFromRpc(env, methodName, params, t1) == GetMethodFromRpc(env, methodName, params, t2)
  {
  }

  /** A truthy result wins: it is returned unchanged even when the response
      also carries an error object. */
  lemma TruthyResultReturned(resp: RpcResponse, params: seq<JsValue>)
    requires Truthy(resp.result)
    ensures Classify(resp, params) == Success(resp.result)
  {
  }

  /** A response with neither result nor error does not throw: the call
      returns the absent result. */
  lemma EmptyResponseIsSilent(params: seq<JsValue>)
    ensures Classify(RpcResponse(Undefined, Undefined), params) == Success(Undefined)
  {
  }
}
