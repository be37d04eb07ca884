# Blockscout explorer provider: transaction merge and numeric normalisation

This project is a Dafny model of the Blockscout provider in an Ethereum explorer
facade. It covers four parts of that provider, and each section below names the
Dafny members that model it:

- The account-transaction merge. The provider fetches an account's plain
  transactions (`txlist`), its token-transfer events (`tokentx`) and its internal
  calls (`txlistinternal`). It joins them by transaction hash into one list of
  transaction records. When a transfer or an internal call names a parent
  transaction that is missing from the list, it builds that parent through a
  single-transaction lookup.
- The single-transaction lookup, `getTransactionByHash`. It reads the explorer's
  `gettxinfo` record, overlays `gasPrice`, `nonce` and `blockHash` from the node's
  `eth_getTransactionByHash`, then maps the fields.
- The numeric normalisers. `BigInt(x).toString()` turns hex or decimal numerals
  into canonical decimal. `parseInt(x).toString(16)` writes the nonce in hex.
- The JSON-RPC client `getMethodFromRPC`. It covers the request envelope, the
  `RPC_VERSION || "2.0"` default, and the rule that decides between returning the
  node's `result` and throwing.

## Modules

- `Wrappers` holds `Option` and `Result`. In the model, `Result.Failure` stands
  for a thrown JavaScript exception.
- `Numerals` defines digit strings in bases 10 and 16 and the numbers they
  denote. It contains:
  - the canonical spelling `Digits` that `toString` produces,
  - the integer-literal grammar `ParseNumeral` shared by `parseInt` and `BigInt`,
  - proofs that `Digits` is the inverse of `Value`, and that canonical spellings
    are unique.
- `JsValues` holds the JavaScript semantics the provider relies on:
  - JSON values,
  - truthiness and `||`,
  - `String(v)`, which writes arrays comma-joined,
  - `parseInt`, `BigInt(..).toString()` and `toString(16)`,
  - property reads that throw on `undefined` and `null`.
- `Rpc` models `getMethodFromRPC`. The HTTP POST to the node is a parameter of
  type `Transport`.
- `Blockscout` holds the provider's record types, the scalar operations, the base
  mapping of `txlist` rows, and `getTransactionByHash`. The explorer's HTTP API is
  a parameter of type `Explorer`.
- `Merge` models `getAccountTransactions`. Its two loops become one left fold,
  `MergeRows`, over the transfer rows followed by the internal-call rows. The
  single-transaction lookup is a parameter of type `Lookup`.
  `ExplorerLookup` instantiates that parameter with the provider's own
  `getTransactionByHash`.
- `MergeExamples` holds concrete scenarios, each worked out value by value.

## Quirks of the code the model keeps

- **Unknown hash:** when the explorer has no record for a hash, `getTransactionByHash`
  fails with a `TypeError` (from `Object.keys(null)`). It does not fail with a
  dedicated "not found" error.
- **Timestamp:** `getTransactionByHash` throws a `RangeError` when `timeStamp * 1000`
  is not a valid `Date` time value (an absent or non-numeric `timeStamp`, or one
  beyond 8.64e15 ms).
- **Overlay guard:** the guard "is any field missing" tests the truthiness of an
  array, so it always holds. The node is therefore consulted on every lookup, and
  the explorer's `gasPrice`, `nonce` and `blockHash` never reach the result.
- **Unmatched transfer:** a transfer whose parent is not listed is pushed onto the
  synthesised parent's `internalTransactions`, not onto its `ERC20Transactions`.
- **Internal call gas:** an internal call's `gasPrice` is its `gas` field.
- **Block number key:** the lookup's block reference is spelt `blockNumer`.
- **Status:** the lookup's `status` comes from the explorer's reply envelope, not
  from the transaction's receipt status.
- **Nonce format:** `getAccountNonce` returns the nonce in canonical decimal, not
  in hex.
- **Failed synthesis:** when synthesising a parent fails, the row is dropped and
  `getAccountTransactions` still resolves, because the async callback's rejection
  is never awaited. Whether that unhandled rejection is merely logged or ends the
  process depends on the Node.js version and its flags.
- **RPC errors:** an RPC error is a plain `Error` whose message is the upstream
  message, the text `, used params for RPC call : ` and the comma-joined params.
  The node's response is returned even when it carries an error next to a truthy
  result, and also when it carries neither.
- **JSON-RPC version:** the version is whatever `RPC_VERSION` holds when that is
  non-empty, and `"2.0"` otherwise.

## Model

| member | source | states |
|---|---|---|
| Merge.GetAccountTransactions | src/providers/blockscout.js:89-193 | every base record stays at its position with its hash, and changes only by entries appended to its sub-lists; the length lies between the number of listed transactions and that plus the number of transfers and calls |
| Merge.Attach | src/providers/blockscout.js:130-191 | with a known parent (the first record with that hash), only that record changes, gaining the transfer in `ERC20Transactions` or the call in `internalTransactions`; otherwise the looked-up record is appended carrying the row in `internalTransactions`, transfers included, or nothing changes when the lookup throws. A transfer enters as `getERC20Tx` builds it (Merge.TransferOf: `from`, `to`, `contractAddress`, parsed `value`, lines 134-141) and a call as `getInternalTx` builds it (Merge.CallOf: `from`, `to`, parsed `value`, the call's `gas` parsed into `gasPrice`, parsed `gasUsed`, `input`, lines 170-179) |
| Merge.FindIndex | src/providers/blockscout.js:131-132 | `find` then `indexOf`: the index of the first record whose hash equals the key, and none exactly when no record matches |
| Merge.MergeRows | src/providers/blockscout.js:130-191 | folding the rows in order, each row seeing the records appended for earlier rows, only appends to sub-lists and to the list, and adds at most one record per row |
| Merge.TransferRows | src/providers/blockscout.js:130-131 | every transfer row becomes a merge row, in order, whose parent key is the row's `hash` |
| Merge.InternalRows | src/providers/blockscout.js:165-166 | every internal-call row becomes a merge row, in order, whose parent key is the row's `transactionHash` |
| Merge.MergeCoverage | src/providers/blockscout.js:143-152 | with a lookup that never throws and answers with a record for the hash it was asked about, the merged hashes are the base hashes together with every parent hash the rows name |
| Merge.MergeFresh | src/providers/blockscout.js:146-151 | with a lookup that answers with a record for the hash it was asked about, every appended record carries a hash no earlier record has |
| Merge.MergeCount | src/providers/blockscout.js:143-152 | with a lookup that never throws and answers with a record for the hash it was asked about, exactly one record is added per referenced hash missing from the base list |
| Merge.MergeDistinct | src/providers/blockscout.js:130-191 | with a lookup that answers with a record for the hash it was asked about, a list without repeated hashes keeps that property through the merge |
| Merge.MergeDropsUnresolved | src/providers/blockscout.js:146-151 | when every lookup throws, no record is added |
| Merge.MergeConservesEntries | src/providers/blockscout.js:143-151 | with a lookup that never throws and answers with empty sub-lists, every row adds exactly one sub-list entry |
| Merge.MergeConcat | src/providers/blockscout.js:130-191 | the transfer loop followed by the internal-call loop equals one loop over the concatenated rows |
| Merge.AccountAsOneLoop | src/providers/blockscout.js:89-193 | the whole operation is one fold over transfers then calls, starting from the mapped `txlist`, and its hash sets are the ones the rows name |
| Merge.AccountCoverage | src/providers/blockscout.js:89-193 | with a lookup that never throws and answers with a record for the hash it was asked about, the result's hashes are exactly the listed, transfer and internal-call parent hashes |
| Merge.AccountCount | src/providers/blockscout.js:89-193 | with a lookup that never throws and answers with a record for the hash it was asked about, the result has the listed transactions plus one record per referenced hash that is not listed |
| Merge.AccountDistinct | src/providers/blockscout.js:89-193 | with a lookup that answers with a record for the hash it was asked about, one record per hash when `txlist` has no repeated hashes |
| Merge.AccountDropsUnresolved | src/providers/blockscout.js:146-152 | when every lookup throws, the result has exactly the listed transactions |
| Merge.AccountConservesEntries | src/providers/blockscout.js:98-191 | with a lookup that never throws and answers with empty sub-lists, the sub-list entries over all records number exactly the transfers plus the internal calls |
| Merge.NoEntriesInBase | src/providers/blockscout.js:115-116 | the base mapping starts every record with empty sub-lists |
| Merge.ExplorerLookupFresh | src/providers/blockscout.js:230-231 | a record from `getTransactionByHash` has empty sub-lists |
| Merge.ExplorerLookupAlwaysFinds | src/providers/blockscout.js:195-233 | `getTransactionByHash` never throws when the explorer has a record with a valid `timeStamp` for every hash and the node answers every request with an object |
| Merge.ExplorerLookupKeepsHash | src/providers/blockscout.js:214 | `getTransactionByHash` returns a record carrying the requested hash whenever the explorer's record does |
| Blockscout.MapTxList | src/providers/blockscout.js:98-118 | one record per row in order, with the row's `hash`, `from`, `to` and `input`; `value`, `gasPrice` and `confirmations` parsed from the row; `gasUsed` as the parsed number; a `blockNumber` block reference holding the parsed block number and the row's `blockHash`; empty sub-lists; `gasLimit` parsed from `gas`, `status` parsed from `txreceipt_status`, and a nonce in canonical hex denoting the parsed nonce, or "NaN" when the nonce does not parse |
| Blockscout.NonceHex | src/providers/blockscout.js:107 | `parseInt(x).toString(16)` is the canonical lower-case hex numeral of the parsed value, or "NaN" |
| Blockscout.GetTransactionByHash | src/providers/blockscout.js:195-233 | explorer failures propagate; a null record is a TypeError; the node is always consulted and its failures propagate; an undefined or null node answer is a TypeError; otherwise the lookup succeeds exactly when `timeStamp` is a valid time and is a RangeError when not; on success `hash`, `from`, `to` and `input` are the explorer's, `value` and `confirmations` are parsed from the explorer's strings, `gasPrice`, `nonce` and `blockHash` come from the node's answer, `gasLimit` falls back to `gas`, `gasUsed` is passed through, `status` is the envelope's, the block key is `blockNumer` holding the explorer's parsed block number, and the sub-lists are empty |
| Blockscout.Overlay | src/providers/blockscout.js:206-211 | node failures propagate; reading the node's answer throws exactly when it is undefined or null; otherwise exactly the three overlaid fields are replaced |
| Blockscout.OverlayGuardAlwaysHolds | src/providers/blockscout.js:206 | the "missing field" guard holds for every list of keys, the empty list included |
| Blockscout.ExplorerOverlaidFieldsIgnored | src/providers/blockscout.js:206-210 | two explorer records that differ only in `gasPrice`, `nonce` and `blockHash` give the same result |
| Blockscout.LookupNonceFromNode | src/providers/blockscout.js:207-221 | when the explorer's `timeStamp` is a valid time and the node answers with an object whose nonce is `0x` followed by canonical lower-case hex digits, the lookup succeeds and its nonce is exactly those digits without the prefix |
| Blockscout.GasLimitOf | src/providers/blockscout.js:219 | `parseInt(gasLimit) \|\| parseInt(gas)`: the `gas` value exactly when `gasLimit` parses to 0 or NaN |
| Blockscout.DecimalFrom | src/providers/blockscout.js:238 | failures propagate; a success is canonical decimal; undefined and null throw a TypeError; a string converts exactly when it is "" (giving "0") or a numeral, keeping its value, and otherwise throws a SyntaxError; a number keeps its value and NaN throws a RangeError |
| Blockscout.GetCurrentBlock | src/providers/blockscout.js:50-61 | queries `block`/`eth_block_number`; the height is the answer under the `BigInt(..).toString()` rule (canonical decimal of its value, TypeError on undefined or null, SyntaxError on a non-numeral string), and the block hash is empty |
| Blockscout.GetAccountBalance | src/providers/blockscout.js:63-72 | queries `account`/`eth_get_balance` with the address; the answer is converted under the `BigInt(..).toString()` rule, including its TypeError and SyntaxError cases |
| Blockscout.GetAccountTokenBalance | src/providers/blockscout.js:74-87 | queries `account`/`tokenbalance` with the contract and the address; the answer is converted under the `BigInt(..).toString()` rule, including its TypeError and SyntaxError cases |
| Blockscout.GetAccountNonce | src/providers/blockscout.js:235-239 | calls `eth_getTransactionCount` with `[address, "latest"]`; the answer is converted to decimal under the `BigInt(..).toString()` rule, including its error cases |
| Blockscout.GetGasPrice | src/providers/blockscout.js:241-245 | calls `eth_gasPrice` with no params; the answer is converted to decimal under the `BigInt(..).toString()` rule, including its error cases |
| Blockscout.GetEstimatedGasLimit | src/providers/blockscout.js:247-255 | calls `eth_estimateGas` with `{from, to, data: input}`; the answer is converted to decimal under the `BigInt(..).toString()` rule, including its error cases |
| Blockscout.PushRawTransaction | src/providers/blockscout.js:257-260 | calls `eth_sendRawTransaction` with the raw transaction and returns the node's answer unconverted: it throws only when the result is falsy and an error is present, and transport failures propagate |
| JsValues.StringToBigIntString | src/providers/blockscout.js:58 | `BigInt(s).toString()`: canonical decimal denoting the parsed value; succeeds exactly for "" (giving "0") or a decimal or `0x` numeral, and otherwise throws a SyntaxError |
| JsValues.BigIntString | src/providers/blockscout.js:71 | `BigInt(v).toString()`: undefined and null throw a TypeError, NaN throws a RangeError, numbers print in decimal, and strings go through the literal parser; `true` and `false` give "1" and "0", a plain object throws a SyntaxError, and an array goes through its comma-joined string |
| JsValues.HexToDecimalRoundTrip | src/providers/blockscout.js:238 | parsing the decimal output gives the same number as parsing the hex or decimal input |
| JsValues.HexToDecimalUnique | src/providers/blockscout.js:244 | a canonical decimal numeral is the output exactly when it denotes the input's value |
| JsValues.NumberToHex | src/providers/blockscout.js:221 | `x.toString(16)` is canonical hex denoting `x`, or "NaN" |
| JsValues.ParseInt | src/providers/blockscout.js:103-114 | `parseInt` is finite exactly when the string is a numeral, and then the digits after any `0x` prefix denote its value in hex, or the whole string denotes it in decimal |
| JsValues.ParseIntOfDigits | src/providers/blockscout.js:103-114 | `parseInt` reads `n.toString()` and `"0x" + n.toString(16)` back as `n` |
| Blockscout.TimestampSeconds | src/providers/blockscout.js:229 | `timeStamp * 1000` as a number of seconds: NaN for undefined, 0 for null and "", the numeral's value for a decimal or `0x` string, the number itself for a number |
| JsValues.LogicalOr | src/rpc.js:15 | `a \|\| b` is `a` when `a` is truthy and `b` otherwise; it is truthy exactly when either operand is |
| JsValues.Property | src/providers/blockscout.js:206-210 | a property read throws exactly on undefined or null, and yields the field or undefined otherwise |
| Numerals.Digits | src/providers/blockscout.js:107 | `toString` output is canonical: non-empty, lower-case digits, no leading zero |
| Numerals.ValueOfDigits | src/providers/blockscout.js:107 | the canonical spelling denotes the number it was made from |
| Numerals.CanonicalUnique | src/providers/blockscout.js:58 | every canonical numeral is the `Digits` of its own value |
| Numerals.ParseDecimalDigits | src/providers/blockscout.js:58 | a canonical decimal numeral parses back to its number |
| Numerals.ParseHexDigits | src/providers/blockscout.js:221 | `0x` followed by canonical hex parses back to its number |
| Rpc.RpcVersion | src/rpc.js:15 | the configured version when it is non-empty, "2.0" when it is unset or empty |
| Rpc.Envelope | src/rpc.js:52-59 | the body is `{jsonrpc: RPC_VERSION, method, params, id: "0"}` |
| Rpc.Classify | src/rpc.js:60-63 | throws exactly when the result is falsy and the error truthy, with a message made of the upstream message, the separator and the comma-joined params; otherwise returns the result unchanged |
| Rpc.GetMethodFromRpc | src/rpc.js:51-64 | posts exactly the envelope; transport failures propagate; the answer is classified |
| Rpc.OnlyTheEnvelopeMatters | src/rpc.js:51-64 | two transports that agree on the envelope give the same outcome |
| Rpc.TruthyResultReturned | src/rpc.js:60-63 | a truthy result is returned even when an error is also present |
| Rpc.EmptyResponseIsSilent | src/rpc.js:60-63 | a response with neither result nor error returns undefined without throwing |
| MergeExamples.UnmatchedTransferIsSynthesised | src/providers/blockscout.js:146-151 | a transfer for an unlisted hash yields a second record holding the transfer in `internalTransactions` |
| MergeExamples.SharedUnknownParentSynthesisedOnce | src/providers/blockscout.js:130-191 | a transfer and a call naming the same unknown hash share one synthesised record holding both entries |
| MergeExamples.DuplicateHashAttachesToFirst | src/providers/blockscout.js:131 | with two listed records of the same hash, the transfer attaches to the first |
| MergeExamples.HexAmountToDecimal | src/providers/blockscout.js:71 | "0x2540be400" normalises to "10000000000", and that decimal input is left unchanged |
| MergeExamples.RpcErrorMessage | src/rpc.js:60-61 | an error `nonce too low` for params `["0xab", "latest"]` throws the message `nonce too low, used params for RPC call : 0xab,latest` |

## Left out

- HTTP transport, headers, the 60-second timeout, authentication and logging are
  all left out. The explorer and the node are function parameters (`Explorer`,
  `Transport`, `Lookup`), and their failures are opaque `Transport` errors.
- The concurrency of `ERC20Txs.map(async ...)` and `internalTxs.map(async ...)`
  is left out. The model runs the rows in order, each after the previous one has
  completed, including its lookup. The source does not:
  - Each callback runs synchronously up to its `await getTransactionByHash`
    (lines 148 and 186). So the `find` of every row in a loop runs before any
    lookup from that loop resolves.
  - Two transfers (or two calls) naming the same unlisted hash therefore each
    synthesise a record in the source. The model synthesises one record and
    attaches the second row to it.
  - Synthesised records are appended in the order the lookups complete, not in
    row order.
  - The callbacks are never awaited. A lookup from the transfer loop may or may
    not finish before the internal-call loop runs its `find`s. Records pushed after
    `return txs` reach the caller's array only if it has not been read yet.
- Merge.MergeDistinct, Merge.AccountDistinct, Merge.MergeFresh, Merge.MergeCount,
  Merge.AccountCount and MergeExamples.SharedUnknownParentSynthesisedOnce are
  properties of the sequential fold only. Under the source's interleaving, a
  repeated unlisted hash can give more than one record.
- The periodic current-block refresh (`recurrentGetCurrentBlock`, `init`) is left
  out. It is disabled in the source and its timer is not part of the model.
- The explorer's `txlist`, `tokentx` and `txlistinternal` queries in
  `getAccountTransactions` are left out. Their `result` arrays are inputs, and
  explorer rows are records of strings in which every field is present.
- Blockscout.GetTransactionByHash: the `timeStamp` field of the returned record
  (an ISO-8601 string built with `Date`) is not modelled; only the `RangeError`
  its construction throws is.
- Blockscout.TimestampSeconds: models `+v` on whole decimal and `0x` numerals
  only. It leaves out whitespace, signs, fractions, exponents and `0o`/`0b`
  literals, which `Number` also accepts.
- ParseInt: does not model leading whitespace, signs, trailing garbage after the
  digits, or the loss of precision above 2^53. Only whole decimal or `0x` numerals
  parse.
- StringToBigIntString: does not model `0o`/`0b` literals, surrounding whitespace
  or signs.
- JsValues.JsNumber: only non-negative integers and NaN are represented. Negative
  and fractional JSON numbers, which can reach `BigInt(r.result)`
  (src/providers/blockscout.js lines 58, 71 and 86) and `tx.timeStamp * 1000`
  (line 229), are not modelled.
- Merge.MergeCoverage, Merge.MergeCount, Merge.AccountCoverage and
  Merge.AccountCount assume a lookup that never throws and answers with a record
  for the requested hash. Merge.MergeFresh, Merge.MergeDistinct and
  Merge.AccountDistinct assume only the second half. Merge.MergeConservesEntries
  and Merge.AccountConservesEntries assume a lookup that never throws and answers
  with empty sub-lists. Merge.ExplorerLookupKeepsHash,
  Merge.ExplorerLookupAlwaysFinds and Merge.ExplorerLookupFresh state when the
  real lookup meets these assumptions.
  When a lookup throws, the row is dropped (Merge.MergeDropsUnresolved covers the
  case where every lookup throws). The mixed case is only bounded by
  Merge.GetAccountTransactions.
- Logger, server, provider selection and the environment checks that throw at
  module load in `src/rpc.js` are left out: they are outside the merge and its
  normalisers.
