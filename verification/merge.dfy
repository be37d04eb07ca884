/** The account-transaction merge of `getAccountTransactions`: the `txlist`
    rows become records, then every `tokentx` row and every `txlistinternal`
    row is attached, in list order, to the first record whose hash equals the
    row's parent hash, or to a parent fetched with the single-transaction
    lookup and appended. The lookup is a parameter. */
module Merge {
  import opened Wrappers
  import opened JsValues
  import opened Rpc
  import opened Blockscout

  /** A row that names a parent transaction. */
  datatype Row = TransferRow(transfer: RawTransfer) | InternalRow(call: RawInternal)

  /** The parent a row names: a transfer by `hash`, an internal call by
      `transactionHash`. */
  function ParentHash(row: Row): string {
    match row
    case TransferRow(t) => t.hash
    case InternalRow(c) => c.transactionHash
  }

  /** `getERC20Tx`. */
  function TransferOf(t: RawTransfer): Erc20Tx {
    Erc20Tx(t.from, t.to, t.contractAddress, ParseInt(t.value))
  }

  /** `getInternalTx`: the call's `gas` goes into `gasPrice`. */
  function CallOf(c: RawInternal): InternalTx {
    InternalTx(c.from, c.to, ParseInt(c.value), ParseInt(c.gas), ParseInt(c.gasUsed), c.input)
  }

  /** What an unmatched row pushes onto its synthesised parent's
      `internalTransactions`: the entry itself, transfers included. */
  function EntryOf(row: Row): InternalEntry {
    match row
    case TransferRow(t) => TransferEntry(TransferOf(t))
    case InternalRow(c) => CallEntry(CallOf(c))
  }

  /** The single-transaction lookup the merge calls for an unknown parent. */
  type Lookup = string -> Result<Transaction, Error>

  /** `txs.find(tx => tx.hash === h)`, as an index: the first record with
      hash `h`, if any. */
  function FindIndex(txs: seq<Transaction>, h: string): (r: Option<nat>)
    ensures r.Some? ==> r.value < |txs| && txs[r.value].hash == h
    ensures r.Some? ==> forall j :: 0 <= j < r.value ==> txs[j].hash != h
    ensures r.None? ==> forall j :: 0 <= j < |txs| ==> txs[j].hash != h
    decreases |txs|
  {
    if |txs| == 0 then None
    else if txs[0].hash == h then Some(0)
    else match FindIndex(txs[1..], h)
      case Some(i) => Some(i + 1)
      case None => None
  }

  // ---------------------------------------------------------------------
  // Growth: records keep their direct fields and only gain entries.

  /** `b` is `a` with zero or more entries appended to its sub-lists. */
  predicate Grows(a: Transaction, b: Transaction) {
    && Direct(a) == Direct(b)
    && a.erc20Transactions <= b.erc20Transactions
    && a.internalTransactions <= b.internalTransactions
  }

  /** `news` keeps every record of `olds` at its position, grown, and may
      have more records after them. */
  predicate Extends(olds: seq<Transaction>, news: seq<Transaction>) {
    && |olds| <= |news|
    && forall i :: 0 <= i < |olds| ==> Grows(olds[i], news[i])
  }

  lemma ExtendsTransitive(a: seq<Transaction>, b: seq<Transaction>, c: seq<Transaction>)
    requires Extends(a, b) && Extends(b, c)
    ensures Extends(a, c)
  {
    forall i | 0 <= i < |a| ensures Grows(a[i], c[i]) {
      assert Grows(a[i], b[i]) && Grows(b[i], c[i]);
    }
  }

  // ---------------------------------------------------------------------
  // One step of the merge.

  /** The matched case: the row's entry appended to the parent's
      `ERC20Transactions` (a transfer) or `internalTransactions` (a call). */
  function AttachToParent(t: Transaction, row: Row): Transaction {
    match row
    case TransferRow(x) => t.(erc20Transactions := t.erc20Transactions + [TransferOf(x)])
    case InternalRow(c) => t.(internalTransactions := t.internalTransactions + [CallEntry(CallOf(c))])
  }

  /** The unmatched case: the looked-up parent carrying the row's entry in
      `internalTransactions`. */
  function AttachToSynthesised(t: Transaction, row: Row): Transaction {
    t.(internalTransactions := t.internalTransactions + [EntryOf(row)])
  }

  /** One iteration of the transfer loop or the internal-call loop. A
      lookup that throws leaves the list as it was. */
  function Attach(txs: seq<Transaction>, row: Row, lookup: Lookup): (r: seq<Transaction>)
    ensures Extends(txs, r) && |r| <= |txs| + 1
    ensures FindIndex(txs, ParentHash(row)).Some? ==>
      var i := FindIndex(txs, ParentHash(row)).value;
      && |r| == |txs|
      && (forall j :: 0 <= j < |txs| && j != i ==> r[j] == txs[j])
      && Direct(r[i]) == Direct(txs[i])
      && (row.TransferRow? ==>
            && r[i].erc20Transactions == txs[i].erc20Transactions + [TransferOf(row.transfer)]
            && r[i].internalTransactions == txs[i].internalTransactions)
      && (row.InternalRow? ==>
            && r[i].internalTransactions == txs[i].internalTransactions + [CallEntry(CallOf(row.call))]
            && r[i].erc20Transactions == txs[i].erc20Transactions)
    ensures FindIndex(txs, ParentHash(row)).None? ==>
      var found := lookup(ParentHash(row));
      && (found.Failure? ==> r == txs)
      && (found.Success? ==>
            && |r| == |txs| + 1 && r[..|txs|] == txs
            && Direct(r[|txs|]) == Direct(found.value)
            && r[|txs|].erc20Transactions == found.value.erc20Transactions
            && (row.TransferRow? ==>
                  r[|txs|].internalTransactions
                  == found.value.internalTransactions + [TransferEntry(TransferOf(row.transfer))])
            && (row.InternalRow? ==>
                  r[|txs|].internalTransactions
                  == found.value.internalTransactions + [CallEntry(CallOf(row.call))]))
  {
    match FindIndex(txs, ParentHash(row))
    case Some(i) => txs[i := AttachToParent(txs[i], row)]
    case None =>
      match lookup(ParentHash(row))
      case Success(t) => txs + [AttachToSynthesised(t, row)]
      case Failure(_) => txs
  }

  /** The loop over a whole list of rows, in order. Each row sees the
      records appended for the rows before it. */
  function MergeRows(txs: seq<Transaction>, rows: seq<Row>, lookup: Lookup): (r: seq<Transaction>)
    ensures Extends(txs, r)
    ensures |r| <= |txs| + |rows|
    decreases |rows|
  {
    if |rows| == 0 then txs
    else
      var next := Attach(txs, rows[0], lookup);
      var r := MergeRows(next, rows[1..], lookup);
      ExtendsTransitive(txs, next, r);
      r
  }

  /** The `tokentx` rows as merge rows: each names its parent by `hash`. */
  function TransferRows(rows: seq<RawTransfer>): (r: seq<Row>)
    ensures |r| == |rows|
    ensures forall i :: 0 <= i < |rows| ==> r[i] == TransferRow(rows[i])
    ensures forall i :: 0 <= i < |rows| ==> ParentHash(r[i]) == rows[i].hash
  {
    seq(|rows|, i requires 0 <= i < |rows| => TransferRow(rows[i]))
  }

  /** The `txlistinternal` rows as merge rows: each names its parent by
      `transactionHash`. */
  function InternalRows(rows: seq<RawInternal>): (r: seq<Row>)
    ensures |r| == |rows|
    ensures forall i :: 0 <= i < |rows| ==> r[i] == InternalRow(rows[i])
    ensures forall i :: 0 <= i < |rows| ==> ParentHash(r[i]) == rows[i].transactionHash
  {
    seq(|rows|, i requires 0 <= i < |rows| => InternalRow(rows[i]))
  }

  /** `getAccountTransactions`: base mapping, then all transfers, then all
      internal calls. */
  function GetAccountTransactions(txlist: seq<ListedTx>, tokentx: seq<RawTransfer>,
                                  internals: seq<RawInternal>, lookup: Lookup): (r: seq<Transaction>)
    ensures Extends(MapTxList(txlist), r)
    ensures |txlist| <= |r| <= |txlist| + |tokentx| + |internals|
    ensures forall i :: 0 <= i < |txlist| ==> r[i].hash == txlist[i].hash
  {
    var afterTransfers := MergeRows(MapTxList(txlist), TransferRows(tokentx), lookup);
    var r := MergeRows(afterTransfers, InternalRows(internals), lookup);
    ExtendsTransitive(MapTxList(txlist), afterTransfers, r);
    r
  }

  // ---------------------------------------------------------------------
  // Hash bookkeeping.

  function Hashes(txs: seq<Transaction>): set<string> {
    set i | 0 <= i < |txs| :: txs[i].hash
  }

  function RowHashes(rows: seq<Row>): set<string> {
    set i | 0 <= i < |rows| :: ParentHash(rows[i])
  }

  predicate DistinctHashes(txs: seq<Transaction>) {
    forall i, j :: 0 <= i < j < |txs| ==> txs[i].hash != txs[j].hash
  }

  /** Every record from index `n` on has a hash no earlier record has. */
  predicate FreshFrom(txs: seq<Transaction>, n: nat) {
    forall i, j :: 0 <= i < j < |txs| && n <= j ==> txs[i].hash != txs[j].hash
  }

  /** The lookup returns a record for the hash it was asked about. */
  ghost predicate KeepsHash(lookup: Lookup) {
    forall h :: lookup(h).Success? ==> lookup(h).value.hash == h
  }

  /** The lookup never throws. */
  ghost predicate AlwaysFinds(lookup: Lookup) {
    forall h :: lookup(h).Success?
  }

  /** The lookup returns records with empty sub-lists. */
  ghost predicate FreshRecords(lookup: Lookup) {
    forall h :: lookup(h).Success? ==>
      lookup(h).value.erc20Transactions == [] && lookup(h).value.internalTransactions == []
  }

  lemma ExtendsKeepsHashes(olds: seq<Transaction>, news: seq<Transaction>)
    requires Extends(olds, news)
    ensures forall i :: 0 <= i < |olds| ==> news[i].hash == olds[i].hash
    ensures Hashes(news[..|olds|]) == Hashes(olds)
  {
    forall i | 0 <= i < |olds| ensures news[i].hash == olds[i].hash {
      assert Direct(olds[i]) == Direct(news[i]);
      assert Direct(olds[i]).hash == olds[i].hash;
    }
    var p := news[..|olds|];
    forall h | h in Hashes(p) ensures h in Hashes(olds) {
      var i :| 0 <= i < |p| && p[i].hash == h;
      assert olds[i].hash == h;
    }
    forall h | h in Hashes(olds) ensures h in Hashes(p) {
      var i :| 0 <= i < |olds| && olds[i].hash == h;
      assert p[i].hash == h;
    }
  }

  lemma RowHashesCons(rows: seq<Row>)
    requires |rows| > 0
    ensures RowHashes(rows) == {ParentHash(rows[0])} + RowHashes(rows[1..])
  {
    var rest := rows[1..];
    forall h | h in RowHashes(rows) ensures h in {ParentHash(rows[0])} + RowHashes(rest) {
      var i :| 0 <= i < |rows| && ParentHash(rows[i]) == h;
      if i > 0 {
        assert ParentHash(rest[i - 1]) == h;
      }
    }
    forall h | h in RowHashes(rest) ensures h in RowHashes(rows) {
      var i :| 0 <= i < |rest| && ParentHash(rest[i]) == h;
      assert ParentHash(rows[i + 1]) == h;
    }
  }

  // ---------------------------------------------------------------------
  // Coverage: every referenced hash ends up with a record.

  lemma AttachHashes(txs: seq<Transaction>, row: Row, lookup: Lookup)
    requires KeepsHash(lookup) && AlwaysFinds(lookup)
    ensures Hashes(Attach(txs, row, lookup)) == Hashes(txs) + {ParentHash(row)}
  {
    var r := Attach(txs, row, lookup);
    var h := ParentHash(row);
    ExtendsKeepsHashes(txs, r);
    match FindIndex(txs, h)
    case Some(i) =>
      assert r[..|txs|] == r;
      assert h == txs[i].hash;
    case None =>
      assert r[|txs|].hash == h by {
        assert Direct(r[|txs|]).hash == Direct(lookup(h).value).hash;
      }
      assert r == r[..|txs|] + [r[|txs|]];
      forall x | x in Hashes(r) ensures x in Hashes(txs) + {h} {
        var i :| 0 <= i < |r| && r[i].hash == x;
        if i < |txs| {
          assert txs[i].hash == x;
        }
      }
      assert h in Hashes(r);
  }

  /** With a lookup that always answers for the requested hash, the merged
      list holds a record for every base hash and every row's parent hash,
      and for nothing else. */
  lemma {:induction false} MergeCoverage(txs: seq<Transaction>, rows: seq<Row>, lookup: Lookup)
    requires KeepsHash(lookup) && AlwaysFinds(lookup)
    ensures Hashes(MergeRows(txs, rows, lookup)) == Hashes(txs) + RowHashes(rows)
    decreases |rows|
  {
    if |rows| > 0 {
      var next := Attach(txs, rows[0], lookup);
      AttachHashes(txs, rows[0], lookup);
      MergeCoverage(next, rows[1..], lookup);
      RowHashesCons(rows);
    }
  }

  // ---------------------------------------------------------------------
  // De-duplication: a synthesised parent is created once per hash.

  lemma AttachFresh(txs: seq<Transaction>, row: Row, lookup: Lookup)
    requires KeepsHash(lookup)
    ensures FreshFrom(Attach(txs, row, lookup), |txs|)
  {
    var r := Attach(txs, row, lookup);
    var h := ParentHash(row);
    if FindIndex(txs, h).None? && lookup(h).Success? {
      assert r[|txs|].hash == h by {
        assert Direct(r[|txs|]).hash == Direct(lookup(h).value).hash;
      }
      forall i | 0 <= i < |txs| ensures r[i].hash != r[|txs|].hash {
        assert r[i] == txs[i];
      }
    }
  }

  /** Every record the merge appends has a hash that no earlier record has. */
  lemma {:induction false} MergeFresh(txs: seq<Transaction>, rows: seq<Row>, lookup: Lookup)
    requires KeepsHash(lookup)
    ensures FreshFrom(MergeRows(txs, rows, lookup), |txs|)
    decreases |rows|
  {
    if |rows| > 0 {
      var next := Attach(txs, rows[0], lookup);
      var r := MergeRows(next, rows[1..], lookup);
      AttachFresh(txs, rows[0], lookup);
      MergeFresh(next, rows[1..], lookup);
      ExtendsKeepsHashes(next, r);
      forall i, j | 0 <= i < j < |r| && |txs| <= j ensures r[i].hash != r[j].hash {
        if j < |next| {
          assert r[i].hash == next[i].hash && r[j].hash == next[j].hash;
        }
      }
    }
  }

  /** Records from index `n` on each add one new hash. */
  lemma {:induction false} FreshFromCount(txs: seq<Transaction>, n: nat)
    requires n <= |txs| && FreshFrom(txs, n)
    ensures |Hashes(txs)| == |Hashes(txs[..n])| + (|txs| - n)
    decreases |txs|
  {
    if |txs| > n {
      var p := txs[..|txs| - 1];
      var last := txs[|txs| - 1];
      assert FreshFrom(p, n);
      FreshFromCount(p, n);
      assert p[..n] == txs[..n];
      assert Hashes(txs) == Hashes(p) + {last.hash} by {
        forall x | x in Hashes(txs) ensures x in Hashes(p) + {last.hash} {
          var i :| 0 <= i < |txs| && txs[i].hash == x;
          if i < |txs| - 1 {
            assert p[i].hash == x;
          }
        }
        forall x | x in Hashes(p) ensures x in Hashes(txs) {
          var i :| 0 <= i < |p| && p[i].hash == x;
          assert txs[i].hash == x;
        }
      }
      assert last.hash !in Hashes(p) by {
        forall i | 0 <= i < |p| ensures p[i].hash != last.hash {
          assert txs[i].hash != txs[|txs| - 1].hash;
        }
      }
    } else {
      assert txs[..n] == txs;
    }
  }

  /** Exactly one record is added per referenced hash the base list lacks. */
  lemma MergeCount(txs: seq<Transaction>, rows: seq<Row>, lookup: Lookup)
    requires KeepsHash(lookup) && AlwaysFinds(lookup)
    ensures |MergeRows(txs, rows, lookup)| == |txs| + |RowHashes(rows) - Hashes(txs)|
  {
    var r := MergeRows(txs, rows, lookup);
    MergeCoverage(txs, rows, lookup);
    MergeFresh(txs, rows, lookup);
    FreshFromCount(r, |txs|);
    ExtendsKeepsHashes(txs, r);
    var a := Hashes(txs);
    var b := RowHashes(rows) - a;
    assert Hashes(r) == a + b;
    assert a * b == {};
  }

  /** A base list without repeated hashes stays without repeated hashes. */
  lemma MergeDistinct(txs: seq<Transaction>, rows: seq<Row>, lookup: Lookup)
    requires KeepsHash(lookup) && DistinctHashes(txs)
    ensures DistinctHashes(MergeRows(txs, rows, lookup))
  {
    var r := MergeRows(txs, rows, lookup);
    MergeFresh(txs, rows, lookup);
    ExtendsKeepsHashes(txs, r);
    forall i, j | 0 <= i < j < |r| ensures r[i].hash != r[j].hash {
      if j < |txs| {
        assert txs[i].hash != txs[j].hash;
      }
    }
  }

  // ---------------------------------------------------------------------
  // Dropped rows: a failing lookup loses the row without a trace.

  /** When every lookup throws, no record is added: each unmatched row is
      silently dropped. */
  lemma {:induction false} MergeDropsUnresolved(txs: seq<Transaction>, rows: seq<Row>, lookup: Lookup)
    requires forall h :: lookup(h).Failure?
    ensures |MergeRows(txs, rows, lookup)| == |txs|
    decreases |rows|
  {
    if |rows| > 0 {
      MergeDropsUnresolved(Attach(txs, rows[0], lookup), rows[1..], lookup);
    }
  }

  // ---------------------------------------------------------------------
  // Conservation: every row becomes exactly one entry.

  function EntryCountOf(t: Transaction): nat {
    |t.erc20Transactions| + |t.internalTransactions|
  }

  /** The number of sub-list entries over all records. */
  function EntryCount(txs: seq<Transaction>): nat
    decreases |txs|
  {
    if |txs| == 0 then 0 else EntryCount(txs[..|txs| - 1]) + EntryCountOf(txs[|txs| - 1])
  }

  lemma {:induction false} EntryCountUpdate(txs: seq<Transaction>, i: nat, t: Transaction)
    requires i < |txs|
    ensures EntryCount(txs[i := t]) + EntryCountOf(txs[i]) == EntryCount(txs) + EntryCountOf(t)
    decreases |txs|
  {
    var u := txs[i := t];
    var n := |txs| - 1;
    if i < n {
      assert u[..n] == txs[..n][i := t];
      EntryCountUpdate(txs[..n], i, t);
    } else {
      assert u[..n] == txs[..n];
    }
  }

  lemma AttachCount(txs: seq<Transaction>, row: Row, lookup: Lookup)
    requires AlwaysFinds(lookup) && FreshRecords(lookup)
    ensures EntryCount(Attach(txs, row, lookup)) == EntryCount(txs) + 1
  {
    var r := Attach(txs, row, lookup);
    match FindIndex(txs, ParentHash(row))
    case Some(i) =>
      EntryCountUpdate(txs, i, r[i]);
      assert r == txs[i := r[i]];
    case None =>
      assert r[..|txs|] == txs;
  }

  /** With a lookup that always answers with a fresh record, every
      transfer and internal-call row ends up as exactly one entry. */
  lemma {:induction false} MergeConservesEntries(txs: seq<Transaction>, rows: seq<Row>, lookup: Lookup)
    requires AlwaysFinds(lookup) && FreshRecords(lookup)
    ensures EntryCount(MergeRows(txs, rows, lookup)) == EntryCount(txs) + |rows|
    decreases |rows|
  {
    if |rows| > 0 {
      AttachCount(txs, rows[0], lookup);
      MergeConservesEntries(Attach(txs, rows[0], lookup), rows[1..], lookup);
    }
  }

  // ---------------------------------------------------------------------
  // The same properties for `getAccountTransactions` as a whole.

  function ListedHashes(txlist: seq<ListedTx>): set<string> {
    set i | 0 <= i < |txlist| :: txlist[i].hash
  }

  function TransferHashes(tokentx: seq<RawTransfer>): set<string> {
    set i | 0 <= i < |tokentx| :: tokentx[i].hash
  }

  function CallParentHashes(internals: seq<RawInternal>): set<string> {
    set i | 0 <= i < |internals| :: internals[i].transactionHash
  }

  /** Running the loop over `a` and then over `b` is running it over `a + b`. */
  lemma {:induction false} MergeConcat(txs: seq<Transaction>, a: seq<Row>, b: seq<Row>, lookup: Lookup)
    ensures MergeRows(MergeRows(txs, a, lookup), b, lookup) == MergeRows(txs, a + b, lookup)
    decreases |a|
  {
    if |a| == 0 {
      assert a + b == b;
    } else {
      assert (a + b)[0] == a[0];
      assert (a + b)[1..] == a[1..] + b;
      MergeConcat(Attach(txs, a[0], lookup), a[1..], b, lookup);
    }
  }

  /** The whole merge as one loop over the transfer rows followed by the
      internal-call rows. */
  lemma AccountAsOneLoop(txlist: seq<ListedTx>, tokentx: seq<RawTransfer>, internals: seq<RawInternal>,
                         lookup: Lookup)
    ensures GetAccountTransactions(txlist, tokentx, internals, lookup)
         == MergeRows(MapTxList(txlist), TransferRows(tokentx) + InternalRows(internals), lookup)
    ensures RowHashes(TransferRows(tokentx) + InternalRows(internals))
         == TransferHashes(tokentx) + CallParentHashes(internals)
    ensures Hashes(MapTxList(txlist)) == ListedHashes(txlist)
  {
    MergeConcat(MapTxList(txlist), TransferRows(tokentx), InternalRows(internals), lookup);
    AccountRowHashes(tokentx, internals);
    BaseHashes(txlist);
  }

  lemma AccountRowHashes(tokentx: seq<RawTransfer>, internals: seq<RawInternal>)
    ensures RowHashes(TransferRows(tokentx) + InternalRows(internals))
         == TransferHashes(tokentx) + CallParentHashes(internals)
  {
    var rows := TransferRows(tokentx) + InternalRows(internals);
    forall h | h in RowHashes(rows) ensures h in TransferHashes(tokentx) + CallParentHashes(internals) {
      var i :| 0 <= i < |rows| && ParentHash(rows[i]) == h;
      if i < |tokentx| {
        assert tokentx[i].hash == h;
      } else {
        assert internals[i - |tokentx|].transactionHash == h;
      }
    }
    forall h | h in TransferHashes(tokentx) ensures h in RowHashes(rows) {
      var i :| 0 <= i < |tokentx| && tokentx[i].hash == h;
      assert ParentHash(rows[i]) == h;
    }
    forall h | h in CallParentHashes(internals) ensures h in RowHashes(rows) {
      var i :| 0 <= i < |internals| && internals[i].transactionHash == h;
      assert ParentHash(rows[|tokentx| + i]) == h;
    }
  }

  lemma BaseHashes(txlist: seq<ListedTx>)
    ensures Hashes(MapTxList(txlist)) == ListedHashes(txlist)
  {
    var base := MapTxList(txlist);
    forall h | h in Hashes(base) ensures h in ListedHashes(txlist) {
      var i :| 0 <= i < |base| && base[i].hash == h;
      assert txlist[i].hash == h;
    }
    forall h | h in ListedHashes(txlist) ensures h in Hashes(base) {
      var i :| 0 <= i < |txlist| && txlist[i].hash == h;
      assert base[i].hash == h;
    }
  }

  /** Every hash referenced by a listed transaction, a transfer or an
      internal call has a record in the result, and no other hash does. */
  lemma AccountCoverage(txlist: seq<ListedTx>, tokentx: seq<RawTransfer>, internals: seq<RawInternal>,
                        lookup: Lookup)
    requires KeepsHash(lookup) && AlwaysFinds(lookup)
    ensures Hashes(GetAccountTransactions(txlist, tokentx, internals, lookup))
         == ListedHashes(txlist) + TransferHashes(tokentx) + CallParentHashes(internals)
  {
    AccountAsOneLoop(txlist, tokentx, internals, lookup);
    MergeCoverage(MapTxList(txlist), TransferRows(tokentx) + InternalRows(internals), lookup);
  }

  /** The final length is the number of listed transactions plus one per
      referenced hash the list lacks; a hash referenced by both a transfer
      and an internal call is synthesised once. */
  lemma AccountCount(txlist: seq<ListedTx>, tokentx: seq<RawTransfer>, internals: seq<RawInternal>,
                     lookup: Lookup)
    requires KeepsHash(lookup) && AlwaysFinds(lookup)
    ensures |GetAccountTransactions(txlist, tokentx, internals, lookup)|
         == |txlist| + |(TransferHashes(tokentx) + CallParentHashes(internals)) - ListedHashes(txlist)|
  {
    AccountAsOneLoop(txlist, tokentx, internals, lookup);
    MergeCount(MapTxList(txlist), TransferRows(tokentx) + InternalRows(internals), lookup);
  }

  /** One record per hash, provided the transaction list has no repeats. */
  lemma AccountDistinct(txlist: seq<ListedTx>, tokentx: seq<RawTransfer>, internals: seq<RawInternal>,
                        lookup: Lookup)
    requires KeepsHash(lookup)
    requires forall i, j :: 0 <= i < j < |txlist| ==> txlist[i].hash != txlist[j].hash
    ensures DistinctHashes(GetAccountTransactions(txlist, tokentx, internals, lookup))
  {
    AccountAsOneLoop(txlist, tokentx, internals, lookup);
    MergeDistinct(MapTxList(txlist), TransferRows(tokentx) + InternalRows(internals), lookup);
  }

  /** If every lookup throws, the result has exactly the listed
      transactions: unmatched transfers and calls vanish. */
  lemma AccountDropsUnresolved(txlist: seq<ListedTx>, tokentx: seq<RawTransfer>, internals: seq<RawInternal>,
                               lookup: Lookup)
    requires forall h :: lookup(h).Failure?
    ensures |GetAccountTransactions(txlist, tokentx, internals, lookup)| == |txlist|
  {
    AccountAsOneLoop(txlist, tokentx, internals, lookup);
    MergeDropsUnresolved(MapTxList(txlist), TransferRows(tokentx) + InternalRows(internals), lookup);
  }

  lemma {:induction false} NoEntriesInBase(txlist: seq<ListedTx>)
    ensures EntryCount(MapTxList(txlist)) == 0
    decreases |txlist|
  {
    if |txlist| > 0 {
      var n := |txlist| - 1;
      assert MapTxList(txlist)[..n] == MapTxList(txlist[..n]);
      NoEntriesInBase(txlist[..n]);
    }
  }

  /** Every transfer row and every internal-call row is attached exactly
      once, given a lookup that always answers with empty sub-lists. */
  lemma AccountConservesEntries(txlist: seq<ListedTx>, tokentx: seq<RawTransfer>, internals: seq<RawInternal>,
                                lookup: Lookup)
    requires AlwaysFinds(lookup) && FreshRecords(lookup)
    ensures EntryCount(GetAccountTransactions(txlist, tokentx, internals, lookup)) == |tokentx| + |internals|
  {
    AccountAsOneLoop(txlist, tokentx, internals, lookup);
    NoEntriesInBase(txlist);
    MergeConservesEntries(MapTxList(txlist), TransferRows(tokentx) + InternalRows(internals), lookup);
  }

  // ---------------------------------------------------------------------
  // The lookup the provider actually passes: `getTransactionByHash`.

  /** `getTransactionByHash` as a lookup, given the explorer's `gettxinfo`
      reply for each hash. */
  function ExplorerLookup(fetch: string -> Result<TxInfoReply, Error>, env: Option<string>,
                          transport: Transport): Lookup {
    h => GetTransactionByHash(h, fetch(h), env, transport)
  }

  /** The provider's lookup always yields records with empty sub-lists. */
  lemma ExplorerLookupFresh(fetch: string -> Result<TxInfoReply, Error>, env: Option<string>,
                            transport: Transport)
    ensures FreshRecords(ExplorerLookup(fetch, env, transport))
  {
    var lookup := ExplorerLookup(fetch, env, transport);
    forall h | lookup(h).Success?
      ensures lookup(h).value.erc20Transactions == [] && lookup(h).value.internalTransactions == []
    {
      assert lookup(h) == GetTransactionByHash(h, fetch(h), env, transport);
    }
  }

  /** It keeps the requested hash whenever the explorer's record carries it. */
  lemma ExplorerLookupKeepsHash(fetch: string -> Result<TxInfoReply, Error>, env: Option<string>,
                                transport: Transport)
    requires forall h :: fetch(h).Success? && fetch(h).value.result.Some? ==> fetch(h).value.result.value.hash == h
    ensures KeepsHash(ExplorerLookup(fetch, env, transport))
  {
    var lookup := ExplorerLookup(fetch, env, transport);
    forall h | lookup(h).Success? ensures lookup(h).value.hash == h {
      assert lookup(h) == GetTransactionByHash(h, fetch(h), env, transport);
    }
  }

  /** It never throws when the explorer has a record with a usable
      `timeStamp` for every hash and the node answers every request with an
      object. */
  lemma ExplorerLookupAlwaysFinds(fetch: string -> Result<TxInfoReply, Error>, env: Option<string>,
                                  transport: Transport)
    requires forall h :: fetch(h).Success? && fetch(h).value.result.Some?
    requires forall h :: ValidTimestamp(fetch(h).value.result.value.timeStamp)
    requires forall q :: transport(q).Success? && transport(q).value.result.Obj?
    ensures AlwaysFinds(ExplorerLookup(fetch, env, transport))
  {
    var lookup := ExplorerLookup(fetch, env, transport);
    forall h ensures lookup(h).Success? {
      var q := RpcRequest(RpcVersion(env), "eth_getTransactionByHash", [Str(h)], "0");
      assert transport(q).Success? && transport(q).value.result.Obj?;
      assert lookup(h) == GetTransactionByHash(h, fetch(h), env, transport);
    }
  }
}
