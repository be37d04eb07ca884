/** The explorer provider of `src/providers/blockscout.js`, apart from the
    account-transaction merge (module `Merge`): the records it builds, the
    single-value reads with their numeric normalisation, and the
    single-transaction lookup with its RPC overlay. Explorer and node round
    trips are parameters. */
module Blockscout {
  import opened Wrappers
  import opened Numerals
  import opened JsValues
  import opened Rpc

  // ---------------------------------------------------------------------
  // Records the provider returns. Numeric fields hold what `parseInt`
  // produced (a number or NaN), not strings.

  /** A token-transfer entry, `getERC20Tx`. */
  datatype Erc20Tx = Erc20Tx(from: string, to: string, contractAddress: string, value: JsNumber)

  /** An internal-call entry, `getInternalTx`; its `gasPrice` holds the
      call's `gas`. */
  datatype InternalTx = InternalTx(from: string, to: string, value: JsNumber,
                                   gasPrice: JsNumber, gasUsed: JsNumber, input: string)

  /** What `internalTransactions` can hold: internal calls, and also the
      token transfer that caused a parent to be synthesised. */
  datatype InternalEntry = CallEntry(call: InternalTx) | TransferEntry(transfer: Erc20Tx)

  /** The `block` object. Records from the transaction list use the key
      `blockNumber`; records from the single-transaction lookup use the
      misspelt key `blockNumer`, so their `block.blockNumber` is undefined. */
  datatype BlockRef =
    | BlockRef(blockNumber: JsNumber, blockHash: JsValue)
    | MisspeltBlockRef(blockNumer: JsNumber, blockHash: JsValue)

  /** A transaction record. `gasUsed` is a parsed number for listed records
      and the explorer's raw string for looked-up ones. */
  datatype Transaction = Transaction(
    hash: string,
    from: string,
    to: string,
    value: JsNumber,
    gasPrice: JsNumber,
    gasLimit: JsNumber,
    gasUsed: JsValue,
    nonce: string,
    block: BlockRef,
    confirmations: JsNumber,
    input: string,
    status: JsNumber,
    erc20Transactions: seq<Erc20Tx>,
    internalTransactions: seq<InternalEntry>)

  /** The record with both sub-lists emptied: every field the merge must
      leave alone. */
  function Direct(t: Transaction): Transaction {
    t.(erc20Transactions := [], internalTransactions := [])
  }

  // ---------------------------------------------------------------------
  // Rows the explorer returns (every field present, as a string).

  /** A `txlist` row. */
  datatype ListedTx = ListedTx(hash: string, from: string, to: string, value: string, gasPrice: string,
                               gas: string, gasUsed: string, nonce: string, blockNumber: string,
                               blockHash: string, confirmations: string, input: string,
                               txreceiptStatus: string)

  /** A `tokentx` row. */
  datatype RawTransfer = RawTransfer(hash: string, from: string, to: string, contractAddress: string, value: string)

  /** A `txlistinternal` row; its parent is named by `transactionHash`. */
  datatype RawInternal = RawInternal(transactionHash: string, from: string, to: string, value: string,
                                     gas: string, gasUsed: string, input: string)

  /** The `gettxinfo` result. The fields the node may have to supply
      (`gasPrice`, `nonce`, `blockHash`), the gas fields and `timeStamp` are
      arbitrary values; `Undefined` stands for an absent key. */
  datatype TxInfo = TxInfo(hash: string, from: string, to: string, value: string, gasPrice: JsValue,
                           gasLimit: JsValue, gas: JsValue, gasUsed: string, nonce: JsValue,
                           blockNumber: string, blockHash: JsValue, confirmations: string,
                           input: string, timeStamp: JsValue)

  /** The `gettxinfo` response body: `result` is null for a hash the
      explorer does not know. */
  datatype TxInfoReply = TxInfoReply(result: Option<TxInfo>, status: string)

  /** An explorer query string: `?module=..&action=..&key=value...`. */
  datatype Query = Query(moduleName: string, action: string, args: seq<(string, string)>)

  /** One explorer GET round trip: the body's `result`, or the failure. */
  type Explorer = Query -> Result<JsValue, Error>

  // ---------------------------------------------------------------------
  // Numeric normalisation.

  /** `parseInt(nonce).toString(16)`: lower-case hex without prefix, or
      "NaN" when the input is not a numeral. */
  function NonceHex(v: JsValue): (h: string)
    ensures ParseIntValue(v).Finite? ==> Canonical(h, Hex) && Denotes(h, Hex, ParseIntValue(v).value)
    ensures ParseIntValue(v).NaN? ==> h == "NaN"
  {
    NumberToHex(ParseIntValue(v))
  }

  /** The relation between an upstream answer and `BigInt(answer).toString()`:
      failures propagate; a success is canonical decimal; undefined and null
      throw a TypeError; a string converts exactly when it is empty (giving
      "0") or a numeral, which keeps its value, and otherwise throws a
      SyntaxError; a number keeps its value and NaN throws a RangeError; a
      boolean is "1" or "0"; a plain object throws a SyntaxError; an array
      converts through its comma-joined string. */
  ghost predicate DecimalOfAnswer(answer: Result<JsValue, Error>, r: Result<string, Error>) {
    && (answer.Failure? ==> r == Failure(answer.error))
    && (r.Success? ==> answer.Success? && Canonical(r.value, Decimal))
    && (answer.Success? && (answer.value.Undefined? || answer.value.Null?) ==>
          r.Failure? && r.error.TypeError?)
    && (answer.Success? && answer.value.Str? ==>
          && (r.Success? <==> answer.value.s == "" || ParseNumeral(answer.value.s).Some?)
          && (r.Failure? ==> r.error == SyntaxError(answer.value.s))
          && (answer.value.s == "" ==> r == Success("0")))
    && (answer.Success? && answer.value.Str? && ParseNumeral(answer.value.s).Some? ==>
          r.Success? && Denotes(r.value, Decimal, ParseNumeral(answer.value.s).value))
    && (answer.Success? && answer.value.Number? ==>
          && (answer.value.num.Finite? ==> r.Success? && Denotes(r.value, Decimal, answer.value.num.value))
          && (answer.value.num.NaN? ==> r.Failure? && r.error.RangeError?))
    && (answer.Success? && answer.value.Bool? ==> r == Success(if answer.value.b then "1" else "0"))
    && (answer.Success? && answer.value.Obj? ==> r.Failure? && r.error.SyntaxError?)
    && (answer.Success? && answer.value.Arr? ==> r == StringToBigIntString(ToJsString(answer.value)))
  }

  function DecimalFrom(answer: Result<JsValue, Error>): (r: Result<string, Error>)
    ensures DecimalOfAnswer(answer, r)
  {
    var v :- answer;
    BigIntString(v)
  }

  /** The current block, as `getCurrentBlock` reports it. */
  datatype CurrentBlock = CurrentBlock(blockHeight: string, blockHash: string)

  /** `getCurrentBlock`: the explorer's `eth_block_number` in decimal and an
      empty block hash. */
  function GetCurrentBlock(explorer: Explorer): (r: Result<CurrentBlock, Error>)
    ensures r.Success? ==> r.value.blockHash == ""
    ensures DecimalOfAnswer(explorer(Query("block", "eth_block_number", [])),
                            if r.Success? then Success(r.value.blockHeight) else Failure(r.error))
  {
    var height :- DecimalFrom(explorer(Query("block", "eth_block_number", [])));
    Success(CurrentBlock(height, ""))
  }

  /** `getAccountBalance`. */
  function GetAccountBalance(address: string, explorer: Explorer): (r: Result<string, Error>)
    ensures DecimalOfAnswer(explorer(Query("account", "eth_get_balance", [("address", address)])), r)
  {
    DecimalFrom(explorer(Query("account", "eth_get_balance", [("address", address)])))
  }

  /** `getAccountTokenBalance`. */
  function GetAccountTokenBalance(address: string, token: string, explorer: Explorer): (r: Result<string, Error>)
    ensures DecimalOfAnswer(explorer(Query("account", "tokenbalance",
                                           [("contractaddress", token), ("address", address)])), r)
  {
    DecimalFrom(explorer(Query("account", "tokenbalance", [("contractaddress", token), ("address", address)])))
  }

  /** `getAccountNonce`: the node's hex transaction count, in decimal. */
  function GetAccountNonce(address: string, env: Option<string>, transport: Transport): (r: Result<string, Error>)
    ensures DecimalOfAnswer(GetMethodFromRpc(env, "eth_getTransactionCount", [Str(address), Str("latest")], transport), r)
  {
    DecimalFrom(GetMethodFromRpc(env, "eth_getTransactionCount", [Str(address), Str("latest")], transport))
  }

  /** `getGasPrice`. */
  function GetGasPrice(env: Option<string>, transport: Transport): (r: Result<string, Error>)
    ensures DecimalOfAnswer(GetMethodFromRpc(env, "eth_gasPrice", [], transport), r)
  {
    DecimalFrom(GetMethodFromRpc(env, "eth_gasPrice", [], transport))
  }

  /** The single parameter of `eth_estimateGas`: `{from, to, data: input}`. */
  function EstimateGasCall(from: string, to: string, input: string): JsValue {
    Obj(map["from" := Str(from), "to" := Str(to), "data" := Str(input)])
  }

  /** `getEstimatedGasLimit`. */
  function GetEstimatedGasLimit(from: string, to: string, input: string, env: Option<string>, transport: Transport)
    : (r: Result<string, Error>)
    ensures DecimalOfAnswer(GetMethodFromRpc(env, "eth_estimateGas", [EstimateGasCall(from, to, input)], transport), r)
  {
    DecimalFrom(GetMethodFromRpc(env, "eth_estimateGas", [EstimateGasCall(from, to, input)], transport))
  }

  /** `pushRawTransaction`: whatever the node answers, unconverted. */
  function PushRawTransaction(rawTx: string, env: Option<string>, transport: Transport): (r: Result<JsValue, Error>)
    ensures var answer := transport(RpcRequest(RpcVersion(env), "eth_sendRawTransaction", [Str(rawTx)], "0"));
      && (answer.Failure? ==> r == Failure(answer.error))
      && (answer.Success? ==>
            && (r.Failure? <==> !Truthy(answer.value.result) && Truthy(answer.value.error))
            && (r.Success? ==> r.value == answer.value.result))
  {
    GetMethodFromRpc(env, "eth_sendRawTransaction", [Str(rawTx)], transport)
  }

  // ---------------------------------------------------------------------
  // The base mapping of `getAccountTransactions`.

  /** One `txlist` row as a transaction record with empty sub-lists. */
  function FromListed(row: ListedTx): Transaction {
    Transaction(
      row.hash, row.from, row.to,
      ParseInt(row.value), ParseInt(row.gasPrice), ParseInt(row.gas),
      Number(ParseInt(row.gasUsed)),
      NonceHex(Str(row.nonce)),
      BlockRef(ParseInt(row.blockNumber), Str(row.blockHash)),
      ParseInt(row.confirmations), row.input, ParseInt(row.txreceiptStatus),
      [], [])
  }

  /** The `txlist` result mapped row by row. */
  function MapTxList(rows: seq<ListedTx>): (txs: seq<Transaction>)
    ensures |txs| == |rows|
    ensures forall i :: 0 <= i < |rows| ==>
      && txs[i].hash == rows[i].hash
      && txs[i].from == rows[i].from && txs[i].to == rows[i].to
      && txs[i].value == ParseInt(rows[i].value)
      && txs[i].gasPrice == ParseInt(rows[i].gasPrice)
      && txs[i].gasUsed == Number(ParseInt(rows[i].gasUsed))
      && txs[i].block == BlockRef(ParseInt(rows[i].blockNumber), Str(rows[i].blockHash))
      && txs[i].confirmations == ParseInt(rows[i].confirmations)
      && txs[i].input == rows[i].input
      && txs[i].erc20Transactions == [] && txs[i].internalTransactions == []
      && txs[i].gasLimit == ParseInt(rows[i].gas)
      && txs[i].status == ParseInt(rows[i].txreceiptStatus)
      && txs[i].nonce == NonceHex(Str(rows[i].nonce))
  {
    seq(|rows|, i requires 0 <= i < |rows| => FromListed(rows[i]))
  }

  // ---------------------------------------------------------------------
  // The single-transaction lookup, `getTransactionByHash`.

  /** `Object.keys(tx).filter(k => tx[k] === undefined)` on a parsed JSON
      object: an absent key is not enumerated and JSON holds no `undefined`
      value, so the list is always empty. */
  function FilteredKeys(tx: TxInfo): seq<JsValue> {
    []
  }

  /** The guard `!!keys`: it tests the array object, not its length. */
  predicate OverlayGuard(keys: seq<JsValue>) {
    Truthy(Arr(keys))
  }

  /** The guard holds for every list of keys, the empty one included, so the
      RPC overlay is never skipped. */
  lemma OverlayGuardAlwaysHolds(keys: seq<JsValue>)
    ensures OverlayGuard(keys)
  {
  }

  /** The node's `eth_getTransactionByHash` fields copied over the explorer's:
      `gasPrice`, `nonce` and `blockHash`. */
  function Overlay(tx: TxInfo, txHash: string, env: Option<string>, transport: Transport): (r: Result<TxInfo, Error>)
    ensures var rpc := GetMethodFromRpc(env, "eth_getTransactionByHash", [Str(txHash)], transport);
      && (rpc.Failure? ==> r == Failure(rpc.error))
      && (rpc.Success? ==> (r.Failure? <==> rpc.value.Undefined? || rpc.value.Null?))
      && (r.Success? ==>
            && rpc.Success?
            && r.value == tx.(gasPrice := Property(rpc.value, "gasPrice").value,
                              nonce := Property(rpc.value, "nonce").value,
                              blockHash := Property(rpc.value, "blockHash").value))
  {
    var rpcTx :- GetMethodFromRpc(env, "eth_getTransactionByHash", [Str(txHash)], transport);
    // Only the first read can throw: the later ones read the same object.
    var gasPrice :- Property(rpcTx, "gasPrice");
    Success(tx.(gasPrice := gasPrice,
                nonce := Property(rpcTx, "nonce").value,
                blockHash := Property(rpcTx, "blockHash").value))
  }

  /** `parseInt(tx.gasLimit) || parseInt(tx.gas)`. */
  function GasLimitOf(tx: TxInfo): (g: JsNumber)
    ensures ParseIntValue(tx.gasLimit) == Finite(0) || ParseIntValue(tx.gasLimit) == NaN ==> g == ParseIntValue(tx.gas)
    ensures ParseIntValue(tx.gasLimit).Finite? && ParseIntValue(tx.gasLimit).value != 0 ==> g == ParseIntValue(tx.gasLimit)
  {
    LogicalOr(Number(ParseIntValue(tx.gasLimit)), Number(ParseIntValue(tx.gas))).num
  }

  /** The largest time value a `Date` holds, in milliseconds (section 21.4.1
      of ECMA-262: time values lie within 8.64e15 ms of the epoch). */
  const MaxTimeValue: nat := 8_640_000_000_000_000

  /** `+v` for the `timeStamp` value, in whole seconds: undefined and
      non-numerals are NaN (`None`), null and "" are 0, a decimal or `0x`
      numeral is its value. */
  function TimestampSeconds(v: JsValue): (t: Option<nat>)
    ensures v.Undefined? ==> t.None?
    ensures v.Null? || v == Str("") ==> t == Some(0)
    ensures v.Str? && v.s != "" ==> t == ParseNumeral(v.s)
    ensures v.Number? ==> (t.Some? <==> v.num.Finite?) && (t.Some? ==> t.value == v.num.value)
  {
    match v
    case Undefined => None
    case Null => Some(0)
    case Bool(b) => Some(if b then 1 else 0)
    case Number(Finite(n)) => Some(n)
    case Number(NaN) => None
    case _ =>
      var s := ToJsString(v);
      if s == "" then Some(0) else ParseNumeral(s)
  }

  /** `new Date(tx.timeStamp * 1000).toISOString()` does not throw: the
      product is a number within the `Date` range. */
  predicate ValidTimestamp(v: JsValue) {
    TimestampSeconds(v).Some? && TimestampSeconds(v).value * 1000 <= MaxTimeValue
  }

  /** The record built from the (overlaid) `gettxinfo` result; `status` is
      the response envelope's status, not the receipt status. */
  function FromTxInfo(tx: TxInfo, replyStatus: string): Transaction {
    Transaction(
      tx.hash, tx.from, tx.to,
      ParseInt(tx.value), ParseIntValue(tx.gasPrice), GasLimitOf(tx),
      Str(tx.gasUsed),
      NonceHex(tx.nonce),
      MisspeltBlockRef(ParseInt(tx.blockNumber), tx.blockHash),
      ParseInt(tx.confirmations), tx.input, ParseInt(replyStatus),
      [], [])
  }

  /** `getTransactionByHash(txHash)` given the explorer's `gettxinfo` reply. */
  function GetTransactionByHash(txHash: string, reply: Result<TxInfoReply, Error>, env: Option<string>,
                                transport: Transport): (r: Result<Transaction, Error>)
    ensures reply.Failure? ==> r == Failure(reply.error)
    ensures reply.Success? && reply.value.result.None? ==> r.Failure? && r.error.TypeError?
    ensures reply.Success? && reply.value.result.Some? ==>
      var tx := reply.value.result.value;
      var rpc := GetMethodFromRpc(env, "eth_getTransactionByHash", [Str(txHash)], transport);
      && (rpc.Failure? ==> r == Failure(rpc.error))
      && (rpc.Success? && (rpc.value.Undefined? || rpc.value.Null?) ==> r.Failure? && r.error.TypeError?)
      && (rpc.Success? && !rpc.value.Undefined? && !rpc.value.Null? ==>
            && (r.Success? <==> ValidTimestamp(tx.timeStamp))
            && (r.Failure? ==> r.error.RangeError?))
    ensures r.Success? ==>
      var tx := reply.value.result.value;
      var rpcTx := GetMethodFromRpc(env, "eth_getTransactionByHash", [Str(txHash)], transport).value;
      && r.value.hash == tx.hash
      && r.value.from == tx.from && r.value.to == tx.to
      && r.value.value == ParseInt(tx.value)
      && r.value.confirmations == ParseInt(tx.confirmations)
      && r.value.input == tx.input
      && r.value.erc20Transactions == [] && r.value.internalTransactions == []
      && r.value.block == MisspeltBlockRef(ParseInt(tx.blockNumber), Property(rpcTx, "blockHash").value)
      && r.value.gasPrice == ParseIntValue(Property(rpcTx, "gasPrice").value)
      && r.value.nonce == NonceHex(Property(rpcTx, "nonce").value)
      && r.value.gasLimit == GasLimitOf(tx)
      && r.value.gasUsed == Str(tx.gasUsed)
      && r.value.status == ParseInt(reply.value.status)
  {
    var rTx :- reply;
    if rTx.result.None? then Failure(TypeError("Cannot convert undefined or null to object"))
    else
      var tx := rTx.result.value;
      var filled :- if OverlayGuard(FilteredKeys(tx)) then Overlay(tx, txHash, env, transport) else Success(tx);
      if !ValidTimestamp(filled.timeStamp) then Failure(RangeError("Invalid time value"))
      else Success(FromTxInfo(filled, rTx.status))
  }

  /** Because the overlay always runs, what the explorer said about
      `gasPrice`, `nonce` and `blockHash` never reaches the result. */
  lemma ExplorerOverlaidFieldsIgnored(txHash: string, tx1: TxInfo, tx2: TxInfo, status: string,
                                       env: Option<string>, transport: Transport)
    requires tx1.(gasPrice := Undefined, nonce := Undefined, blockHash := Undefined)
          == tx2.(gasPrice := Undefined, nonce := Undefined, blockHash := Undefined)
    ensures GetTransactionByHash(txHash, Success(TxInfoReply(Some(tx1), status)), env, transport)
         == GetTransactionByHash(txHash, Success(TxInfoReply(Some(tx2), status)), env, transport)
  {
    OverlayGuardAlwaysHolds(FilteredKeys(tx1));
    var o1 := Overlay(tx1, txHash, env, transport);
    var o2 := Overlay(tx2, txHash, env, transport);
    if o1.Success? {
      assert o1.value == o2.value;
    }
  }

  /** When the node answers with a record whose nonce is `0x<hex>`, the
      lookup succeeds and its nonce is the same number in unprefixed
      lower-case hex. */
  lemma LookupNonceFromNode(txHash: string, tx: TxInfo, status: string, env: Option<string>,
                             transport: Transport, fields: map<string, JsValue>,
                             error: JsValue, n: nat)
    requires transport(RpcRequest(RpcVersion(env), "eth_getTransactionByHash", [Str(txHash)], "0"))
          == Success(RpcResponse(Obj(fields), error))
    requires "nonce" in fields && fields["nonce"] == Str("0x" + Digits(n, Hex))
    requires ValidTimestamp(tx.timeStamp)
    ensures GetTransactionByHash(txHash, Success(TxInfoReply(Some(tx), status)), env, transport).Success?
    ensures GetTransactionByHash(txHash, Success(TxInfoReply(Some(tx), status)), env, transport).value.nonce
         == Digits(n, Hex)
  {
    OverlayGuardAlwaysHolds(FilteredKeys(tx));
    var r := GetTransactionByHash(txHash, Success(TxInfoReply(Some(tx), status)), env, transport);
    assert r.Success?;
    ParseHexDigits(n);
    var h := r.value.nonce;
    assert Canonical(h, Hex) && Denotes(h, Hex, n);
    CanonicalUnique(h, Hex);
  }
}
