/** Concrete runs of the model on small inputs. */
module MergeExamples {
  import opened Wrappers
  import opened Numerals
  import opened JsValues
  import opened Rpc
  import opened Blockscout
  import opened Merge

  /** A record as a lookup might return it for `h`: every other field empty. */
  function Blank(h: string): Transaction {
    Transaction(h, "", "", NaN, NaN, NaN, Undefined, "NaN", MisspeltBlockRef(NaN, Undefined),
                NaN, "", NaN, [], [])
  }

  function Listed(h: string): ListedTx {
    ListedTx(h, "0xF", "0xT", "0x1", "1", "21000", "21000", "5", "7", "0xBH", "3", "0x", "1")
  }

  lemma OneRow(txs: seq<Transaction>, row: Row, lookup: Lookup)
    ensures MergeRows(txs, [row], lookup) == Attach(txs, row, lookup)
    ensures MergeRows(txs, [], lookup) == txs
  {
    assert [row][1..] == [];
  }

  /** The base record `Listed(h)` maps to. */
  lemma ListedBase(h: string)
    ensures MapTxList([Listed(h)]) == [FromListed(Listed(h))]
    ensures FromListed(Listed(h)).value == Finite(1) && FromListed(Listed(h)).nonce == "5"
    ensures FromListed(Listed(h)).hash == h
  {
    assert ParseNumeral("0x1") == Some(1);
    assert ParseNumeral("5") == Some(5);
    assert Digits(5, Hex) == "5";
  }

  /** A listed transaction and a transfer for an unknown hash: two records,
      the second synthesised and carrying the transfer among its internal
      transactions. */
  lemma UnmatchedTransferIsSynthesised()
    ensures var r := GetAccountTransactions([Listed("0xA")], [RawTransfer("0xB", "0xF", "0xT", "0xC", "5")], [],
                                            h => Success(Blank(h)));
      && |r| == 2
      && r[0].hash == "0xA" && r[0].erc20Transactions == [] && r[0].internalTransactions == []
      && r[0].value == Finite(1) && r[0].nonce == "5"
      && r[1].hash == "0xB" && r[1].erc20Transactions == []
      && r[1].internalTransactions == [TransferEntry(Erc20Tx("0xF", "0xT", "0xC", Finite(5)))]
  {
    var lookup: Lookup := h => Success(Blank(h));
    ListedBase("0xA");
    var base := [FromListed(Listed("0xA"))];
    var t := RawTransfer("0xB", "0xF", "0xT", "0xC", "5");
    assert TransferRows([t]) == [TransferRow(t)];
    OneRow(base, TransferRow(t), lookup);
    assert FindIndex(base, "0xB").None?;
    var afterTransfers := base + [AttachToSynthesised(Blank("0xB"), TransferRow(t))];
    assert MergeRows(base, TransferRows([t]), lookup) == afterTransfers;
    assert InternalRows([]) == [];
    assert MergeRows(afterTransfers, InternalRows([]), lookup) == afterTransfers;
    assert ParseInt("5") == Finite(5);
  }

  /** A transfer and an internal call naming the same unknown hash: one
      synthesised record, holding both entries in `internalTransactions`. */
  lemma SharedUnknownParentSynthesisedOnce()
    ensures var r := GetAccountTransactions([], [RawTransfer("0xD", "0xF", "0xT", "0xC", "5")],
                                            [RawInternal("0xD", "0xF", "0xT", "2", "9", "8", "0x")],
                                            h => Success(Blank(h)));
      && |r| == 1 && r[0].hash == "0xD"
      && r[0].erc20Transactions == []
      && r[0].internalTransactions
         == [TransferEntry(Erc20Tx("0xF", "0xT", "0xC", Finite(5))),
             CallEntry(InternalTx("0xF", "0xT", Finite(2), Finite(9), Finite(8), "0x"))]
  {
    var lookup: Lookup := h => Success(Blank(h));
    var t := RawTransfer("0xD", "0xF", "0xT", "0xC", "5");
    var c := RawInternal("0xD", "0xF", "0xT", "2", "9", "8", "0x");
    var base := MapTxList([]);
    assert base == [];
    var afterTransfers := MergeRows(base, TransferRows([t]), lookup);
    assert TransferRows([t]) == [TransferRow(t)];
    OneRow(base, TransferRow(t), lookup);
    assert afterTransfers == Attach(base, TransferRow(t), lookup);
    assert afterTransfers == [AttachToSynthesised(Blank("0xD"), TransferRow(t))];
    assert InternalRows([c]) == [InternalRow(c)];
    assert FindIndex(afterTransfers, "0xD") == Some(0);
    var r := MergeRows(afterTransfers, InternalRows([c]), lookup);
    OneRow(afterTransfers, InternalRow(c), lookup);
  }

  /** The base list two copies of `Listed(h)` map to. */
  lemma TwiceListedBase(h: string)
    ensures MapTxList([Listed(h), Listed(h)]) == [FromListed(Listed(h)), FromListed(Listed(h))]
  {
  }

  /** Two listed records with the same hash: the transfer goes to the first. */
  lemma DuplicateHashAttachesToFirst()
    ensures var r := GetAccountTransactions([Listed("0xA"), Listed("0xA")],
                                            [RawTransfer("0xA", "0xF", "0xT", "0xC", "5")], [],
                                            h => Failure(TypeError("unused")));
      && |r| == 2
      && r[0].erc20Transactions == [Erc20Tx("0xF", "0xT", "0xC", Finite(5))]
      && r[1].erc20Transactions == []
  {
    var lookup: Lookup := h => Failure(TypeError("unused"));
    TwiceListedBase("0xA");
    var base := [FromListed(Listed("0xA")), FromListed(Listed("0xA"))];
    var t := RawTransfer("0xA", "0xF", "0xT", "0xC", "5");
    assert TransferRows([t]) == [TransferRow(t)];
    OneRow(base, TransferRow(t), lookup);
    assert FindIndex(base, "0xA") == Some(0);
    var afterTransfers := MergeRows(base, TransferRows([t]), lookup);
    assert afterTransfers == Attach(base, TransferRow(t), lookup);
    assert MergeRows(afterTransfers, InternalRows([]), lookup) == afterTransfers;
  }

  lemma ValueAppend(s: string, c: char, r: Radix)
    requires AllDigits(s, r) && IsDigit(c, r)
    ensures AllDigits(s + [c], r)
    ensures Value(s + [c], r) == Value(s, r) * Base(r) + DigitValue(c, r)
  {
    assert (s + [c])[..|s|] == s;
    assert forall i :: 0 <= i < |s| ==> s[i] == (s + [c])[i];
    assert (s + [c])[|s|] == c;
  }

  lemma ThousandDecimal()
    ensures AllDigits("1000", Decimal) && Value("1000", Decimal) == 1000
  {
    ValueAppend("", '1', Decimal);
    assert "1" == "" + ['1'];
    assert "10" == "1" + ['0'];
    ValueAppend("1", '0', Decimal);
    assert Value("10", Decimal) == 10;
    assert "100" == "10" + ['0'];
    ValueAppend("10", '0', Decimal);
    assert Value("100", Decimal) == 100;
    assert "1000" == "100" + ['0'];
    ValueAppend("100", '0', Decimal);
    assert Value("1000", Decimal) == 1000;
  }

  lemma MillionDecimal()
    ensures AllDigits("1000000", Decimal) && Value("1000000", Decimal) == 1000000
  {
    ThousandDecimal();
    assert "10000" == "1000" + ['0'];
    ValueAppend("1000", '0', Decimal);
    assert Value("10000", Decimal) == 10000;
    assert "100000" == "10000" + ['0'];
    ValueAppend("10000", '0', Decimal);
    assert Value("100000", Decimal) == 100000;
    assert "1000000" == "100000" + ['0'];
    ValueAppend("100000", '0', Decimal);
    assert Value("1000000", Decimal) == 1000000;
  }

  lemma TenBillionDecimal()
    ensures AllDigits("10000000000", Decimal) && Value("10000000000", Decimal) == 10000000000
  {
    MillionDecimal();
    assert "10000000" == "1000000" + ['0'];
    ValueAppend("1000000", '0', Decimal);
    assert Value("10000000", Decimal) == 10000000;
    assert "100000000" == "10000000" + ['0'];
    ValueAppend("10000000", '0', Decimal);
    assert Value("100000000", Decimal) == 100000000;
    assert "1000000000" == "100000000" + ['0'];
    ValueAppend("100000000", '0', Decimal);
    assert Value("1000000000", Decimal) == 1000000000;
    assert "10000000000" == "1000000000" + ['0'];
    ValueAppend("1000000000", '0', Decimal);
    assert Value("10000000000", Decimal) == 10000000000;
  }

  lemma HexPrefixValue()
    ensures AllDigits("254", Hex) && Value("254", Hex) == 596
  {
    ValueAppend("", '2', Hex);
    assert "2" == "" + ['2'];
    assert "25" == "2" + ['5'];
    ValueAppend("2", '5', Hex);
    assert Value("25", Hex) == 37;
    assert "254" == "25" + ['4'];
    ValueAppend("25", '4', Hex);
    assert Value("254", Hex) == 596;
  }

  lemma HexMiddleValue()
    ensures AllDigits("2540be", Hex) && Value("2540be", Hex) == 2441406
  {
    HexPrefixValue();
    assert "2540" == "254" + ['0'];
    ValueAppend("254", '0', Hex);
    assert Value("2540", Hex) == 9536;
    assert "2540b" == "2540" + ['b'];
    ValueAppend("2540", 'b', Hex);
    assert Value("2540b", Hex) == 152587;
    assert "2540be" == "2540b" + ['e'];
    ValueAppend("2540b", 'e', Hex);
    assert Value("2540be", Hex) == 2441406;
  }

  lemma TenBillionHex()
    ensures AllDigits("2540be400", Hex) && Value("2540be400", Hex) == 10000000000
  {
    HexMiddleValue();
    assert "2540be4" == "2540be" + ['4'];
    ValueAppend("2540be", '4', Hex);
    assert Value("2540be4", Hex) == 39062500;
    assert "2540be40" == "2540be4" + ['0'];
    ValueAppend("2540be4", '0', Hex);
    assert Value("2540be40", Hex) == 625000000;
    assert "2540be400" == "2540be40" + ['0'];
    ValueAppend("2540be40", '0', Hex);
    assert Value("2540be400", Hex) == 10000000000;
  }

  /** `BigInt("0x2540be400").toString()` is "10000000000", and a decimal
      input is left as it is. */
  lemma HexAmountToDecimal()
    ensures StringToBigIntString("0x2540be400") == Success("10000000000")
    ensures StringToBigIntString("10000000000") == Success("10000000000")
  {
    var t := "10000000000";
    assert Canonical(t, Decimal);
    TenBillionDecimal();
    TenBillionHex();
    assert "0x2540be400"[2..] == "2540be400";
    assert ParseNumeral("0x2540be400") == Some(10000000000);
    HexToDecimalUnique("0x2540be400", t);
    HexToDecimalUnique(t, t);
  }

  lemma ParamsText()
    ensures ToJsString(Arr([Str("0xab"), Str("latest")])) == "0xab,latest"
  {
    var params := [Str("0xab"), Str("latest")];
    ArrayString(params);
    assert ElementStrings(params) == ["0xab", "latest"];
    assert Join(["latest"], ",") == "latest";
    assert Join(["0xab", "latest"], ",") == "0xab,latest";
  }

  lemma NonceTooLowText()
    ensures ErrorText(Obj(map["message" := Str("nonce too low")]), [Str("0xab"), Str("latest")])
         == "nonce too low" + SeparatorText + "0xab,latest"
  {
    var error := Obj(map["message" := Str("nonce too low")]);
    ParamsText();
    assert Property(error, "message").value == Str("nonce too low");
  }

  /** The thrown message for an error response: upstream message, the
      separator, then the params joined with commas. */
  lemma RpcErrorMessage()
    ensures Classify(RpcResponse(Null, Obj(map["message" := Str("nonce too low")])), [Str("0xab"), Str("latest")])
         == Failure(PlainError("nonce too low" + SeparatorText + "0xab,latest"))
  {
    NonceTooLowText();
  }
}
