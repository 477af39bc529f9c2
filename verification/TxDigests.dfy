/**
 The digests of a transaction: one row per clause, and for the system's own script-engine transactions one row
 per pair of sender and recipient, with the transfers of the pair added up.
 */
module TxDigests {
  import opened Common

  /** kind is the action or the selector the clause's data decodes to; scripted says that it is script-engine data. */
  datatype Clause = Clause(to: Option<Address>, value: int, token: nat, kind: string, scripted: bool)

  datatype Transfer = Transfer(sender: Address, recipient: Address, token: nat, amount: int)

  datatype Tx = Tx(origin: Address, clauses: seq<Clause>, outputs: seq<seq<Transfer>>, reverted: bool)

  /** The columns that are the same in every row of a transaction (block, hash, fee, index) are left out. */
  datatype Digest = Digest(from: Address, to: Address, mtr: int, mtrg: int, kind: string, reverted: bool,
                           clauseIndexs: seq<nat>)

  /** What is hashed into an id; the hash is taken to be injective. */
  datatype Id = ClauseId(from: Address, to: Address, clauseIndex: nat) | PairId(from: Address, to: Address)

  // ---------------------------------------------------------------------------
  // Rows per clause
  // ---------------------------------------------------------------------------

  function Target(c: Clause): Address {
    if c.to.Some? then c.to.value else ZERO_ADDRESS
  }

  function Direct(tx: Tx, k: nat): Digest
    requires k < |tx.clauses|
  {
    var c := tx.clauses[k];
    Digest(tx.origin, Target(c), if c.token == 0 then c.value else 0, if c.token == 1 then c.value else 0, c.kind,
           tx.reverted, [k])
  }

  function Directs(tx: Tx, n: nat): (rows: seq<Digest>)
    requires n <= |tx.clauses|
    ensures |rows| == n && forall k: nat :: k < n ==> rows[k] == Direct(tx, k)
  {
    if n == 0 then [] else Directs(tx, n - 1) + [Direct(tx, n - 1)]
  }

  // ---------------------------------------------------------------------------
  // Rows per pair
  // ---------------------------------------------------------------------------

  /** A transfer with the clause it belongs to. */
  datatype Item = Item(clause: nat, tr: Transfer)

  predicate Qualifies(tx: Tx, k: nat) {
    !tx.reverted && tx.origin == ZERO_ADDRESS && k < |tx.clauses| && tx.clauses[k].scripted
  }

  function Items(k: nat, transfers: seq<Transfer>): seq<Item> {
    if transfers == [] then []
    else Items(k, transfers[..|transfers| - 1]) + [Item(k, transfers[|transfers| - 1])]
  }

  /** The qualifying transfers of the first n outputs, in order. */
  function Qualifying(tx: Tx, n: nat): seq<Item>
    requires n <= |tx.outputs|
  {
    if n == 0 then []
    else if Qualifies(tx, n - 1) then Qualifying(tx, n - 1) + Items(n - 1, tx.outputs[n - 1])
    else Qualifying(tx, n - 1)
  }

  /** The amount of a transfer, if it is of the token. */
  function Amount(tr: Transfer, token: nat): int {
    if tr.token == token then tr.amount else 0
  }

  function Find(rows: seq<Digest>, from: Address, to: Address): (i: nat)
    ensures i <= |rows|
    ensures i < |rows| ==> rows[i].from == from && rows[i].to == to
    ensures forall j: nat :: j < i ==> rows[j].from != from || rows[j].to != to
  {
    if rows == [] then 0
    else
      var front, last := rows[..|rows| - 1], rows[|rows| - 1];
      var i := Find(front, from, to);
      if i < |front| then i else if last.from == from && last.to == to then i else i + 1
  }

  function AddIndex(indexes: seq<nat>, k: nat): seq<nat> {
    if k in indexes then indexes else indexes + [k]
  }

  function AddTransfer(rows: seq<Digest>, item: Item): seq<Digest> {
    var tr := item.tr;
    var i := Find(rows, tr.sender, tr.recipient);
    if i < |rows| then
      var d := rows[i];
      rows[i := d.(mtr := d.mtr + Amount(tr, 0), mtrg := d.mtrg + Amount(tr, 1),
                   clauseIndexs := AddIndex(d.clauseIndexs, item.clause))]
    else
      rows + [Digest(tr.sender, tr.recipient, Amount(tr, 0), Amount(tr, 1), "Transfer", false, [item.clause])]
  }

  function Collect(items: seq<Item>): seq<Digest> {
    if items == [] then [] else AddTransfer(Collect(items[..|items| - 1]), items[|items| - 1])
  }

  // ---------------------------------------------------------------------------
  // What the rows per pair are
  // ---------------------------------------------------------------------------

  predicate IsFor(item: Item, from: Address, to: Address) {
    item.tr.sender == from && item.tr.recipient == to
  }

  /** The pair's transfers of a token, added up. */
  function SumFor(items: seq<Item>, from: Address, to: Address, token: nat): int {
    if items == [] then 0
    else
      var front, item := items[..|items| - 1], items[|items| - 1];
      SumFor(front, from, to, token) + (if IsFor(item, from, to) then Amount(item.tr, token) else 0)
  }

  function SumOf(items: seq<Item>, token: nat): int {
    if items == [] then 0 else SumOf(items[..|items| - 1], token) + Amount(items[|items| - 1].tr, token)
  }

  /** Clause k has a transfer of the pair. */
  predicate Has(items: seq<Item>, from: Address, to: Address, k: nat) {
    && items != []
    && (Has(items[..|items| - 1], from, to, k)
        || (IsFor(items[|items| - 1], from, to) && items[|items| - 1].clause == k))
  }

  ghost predicate Occurs(items: seq<Item>, from: Address, to: Address) {
    exists k: nat :: Has(items, from, to, k)
  }

  ghost predicate NoRepeats(s: seq<nat>) {
    forall i: nat, j: nat :: i < j < |s| ==> s[i] != s[j]
  }

  /** The row of a pair: the totals of both tokens, and each contributing clause once. */
  ghost predicate RowExact(items: seq<Item>, d: Digest) {
    && d.mtr == SumFor(items, d.from, d.to, 0)
    && d.mtrg == SumFor(items, d.from, d.to, 1)
    && d.kind == "Transfer" && !d.reverted
    && NoRepeats(d.clauseIndexs)
    && (forall k: nat :: k in d.clauseIndexs <==> Has(items, d.from, d.to, k))
  }

  ghost predicate PairsDiffer(rows: seq<Digest>) {
    forall i: nat, j: nat {:trigger rows[i], rows[j]} :: i < j < |rows| ==>
      rows[i].from != rows[j].from || rows[i].to != rows[j].to
  }

  lemma {:induction false} NothingToAdd(items: seq<Item>, from: Address, to: Address, token: nat)
    requires !Occurs(items, from, to)
    ensures SumFor(items, from, to, token) == 0
  {
    if items != [] {
      var front, item := items[..|items| - 1], items[|items| - 1];
      assert !IsFor(item, from, to) by {
        assert !Has(items, from, to, item.clause);
      }
      assert !Occurs(front, from, to) by {
        if Occurs(front, from, to) {
          var k: nat :| Has(front, from, to, k);
          assert Has(items, from, to, k);
        }
      }
      NothingToAdd(front, from, to, token);
    }
  }

  /** Each pair with a qualifying transfer has one row, and the row is exact. */
  lemma {:induction false} CollectIsExact(items: seq<Item>)
    ensures PairsDiffer(Collect(items))
    ensures forall d :: d in Collect(items) ==> RowExact(items, d) && Occurs(items, d.from, d.to)
    ensures forall from: Address, to: Address :: Occurs(items, from, to) ==>
              Find(Collect(items), from, to) < |Collect(items)|
  {
    if items == [] {
      return;
    }
    var front, item := items[..|items| - 1], items[|items| - 1];
    var rows, after := Collect(front), Collect(items);
    CollectIsExact(front);
    AddKeepsPairs(rows, item);
    forall d | d in after
      ensures RowExact(items, d) && Occurs(items, d.from, d.to)
    {
      var i: nat :| i < |after| && after[i] == d;
      AddedRow(items, rows, i);
    }
    forall from: Address, to: Address | Occurs(items, from, to)
      ensures Find(after, from, to) < |after|
    {
      var k: nat :| Has(items, from, to, k);
      if Has(front, from, to, k) {
        assert Occurs(front, from, to);
      }
      AddKeepsRows(rows, item, from, to);
    }
  }

  lemma AddKeepsPairs(rows: seq<Digest>, item: Item)
    requires PairsDiffer(rows)
    ensures PairsDiffer(AddTransfer(rows, item))
  {
    var after := AddTransfer(rows, item);
    forall i: nat, j: nat | i < j < |after|
      ensures after[i].from != after[j].from || after[i].to != after[j].to
    {
      if j < |rows| {
        assert rows[i].from != rows[j].from || rows[i].to != rows[j].to;
      }
    }
  }

  lemma AddKeepsRows(rows: seq<Digest>, item: Item, from: Address, to: Address)
    requires Find(rows, from, to) < |rows| || IsFor(item, from, to)
    ensures Find(AddTransfer(rows, item), from, to) < |AddTransfer(rows, item)|
  {
    var after, i := AddTransfer(rows, item), Find(rows, from, to);
    if i < |rows| {
      assert after[i].from == from && after[i].to == to;
    } else {
      assert after[|rows|].from == from && after[|rows|].to == to;
    }
  }

  /** One row after one more transfer. */
  lemma AddedRow(items: seq<Item>, rows: seq<Digest>, i: nat)
    requires items != [] && rows == Collect(items[..|items| - 1]) && i < |Collect(items)|
    requires PairsDiffer(rows)
    requires forall d :: d in rows ==> RowExact(items[..|items| - 1], d) && Occurs(items[..|items| - 1], d.from, d.to)
    requires forall from: Address, to: Address ::
               Occurs(items[..|items| - 1], from, to) ==> Find(rows, from, to) < |rows|
    ensures RowExact(items, Collect(items)[i]) && Occurs(items, Collect(items)[i].from, Collect(items)[i].to)
  {
    var front, item := items[..|items| - 1], items[|items| - 1];
    var d, at := Collect(items)[i], Find(rows, item.tr.sender, item.tr.recipient);
    if i == at < |rows| {
      assert rows[at] in rows;
      RowGrows(items, rows[at], d);
    } else if i < |rows| {
      assert d == rows[i] && rows[i] in rows;
      if at < |rows| {
        assert rows[i].from != rows[at].from || rows[i].to != rows[at].to;
      }
      RowStays(items, d);
    } else {
      RowStarts(items, d);
    }
  }

  lemma RowGrows(items: seq<Item>, before: Digest, after: Digest)
    requires items != [] && RowExact(items[..|items| - 1], before)
    requires IsFor(items[|items| - 1], before.from, before.to)
    requires var item := items[|items| - 1];
             after == before.(mtr := before.mtr + Amount(item.tr, 0), mtrg := before.mtrg + Amount(item.tr, 1),
                              clauseIndexs := AddIndex(before.clauseIndexs, item.clause))
    ensures RowExact(items, after) && Occurs(items, after.from, after.to)
  {
    assert Has(items, after.from, after.to, items[|items| - 1].clause);
  }

  lemma RowStays(items: seq<Item>, d: Digest)
    requires items != [] && RowExact(items[..|items| - 1], d) && Occurs(items[..|items| - 1], d.from, d.to)
    requires !IsFor(items[|items| - 1], d.from, d.to)
    ensures RowExact(items, d) && Occurs(items, d.from, d.to)
  {
    var k: nat :| Has(items[..|items| - 1], d.from, d.to, k);
    assert Has(items, d.from, d.to, k);
  }

  lemma RowStarts(items: seq<Item>, d: Digest)
    requires items != [] && !Occurs(items[..|items| - 1], d.from, d.to)
    requires IsFor(items[|items| - 1], d.from, d.to)
    requires var item := items[|items| - 1];
             d == Digest(item.tr.sender, item.tr.recipient, Amount(item.tr, 0), Amount(item.tr, 1), "Transfer", false,
                         [item.clause])
    ensures RowExact(items, d) && Occurs(items, d.from, d.to)
  {
    var front := items[..|items| - 1];
    NothingToAdd(front, d.from, d.to, 0);
    NothingToAdd(front, d.from, d.to, 1);
    assert Has(items, d.from, d.to, items[|items| - 1].clause);
    forall k: nat
      ensures !Has(front, d.from, d.to, k)
    {
      assert !Occurs(front, d.from, d.to);
    }
  }

  // ---------------------------------------------------------------------------
  // Totals
  // ---------------------------------------------------------------------------

  function TotalMtr(rows: seq<Digest>): int {
    if rows == [] then 0 else TotalMtr(rows[..|rows| - 1]) + rows[|rows| - 1].mtr
  }

  function TotalMtrg(rows: seq<Digest>): int {
    if rows == [] then 0 else TotalMtrg(rows[..|rows| - 1]) + rows[|rows| - 1].mtrg
  }

  lemma {:induction false} TotalsPut(rows: seq<Digest>, i: nat, d: Digest)
    requires i < |rows|
    ensures TotalMtr(rows[i := d]) == TotalMtr(rows) - rows[i].mtr + d.mtr
    ensures TotalMtrg(rows[i := d]) == TotalMtrg(rows) - rows[i].mtrg + d.mtrg
  {
    var n := |rows| - 1;
    if i == n {
      assert rows[i := d][..n] == rows[..n];
    } else {
      assert rows[i := d][..n] == rows[..n][i := d];
      TotalsPut(rows[..n], i, d);
    }
  }

  /** The rows per pair keep the MTR and the MTRG of the qualifying transfers. */
  lemma {:induction false} TotalsPreserved(items: seq<Item>)
    ensures TotalMtr(Collect(items)) == SumOf(items, 0)
    ensures TotalMtrg(Collect(items)) == SumOf(items, 1)
  {
    if items != [] {
      var front, item := items[..|items| - 1], items[|items| - 1];
      var rows, after := Collect(front), Collect(items);
      TotalsPreserved(front);
      var i := Find(rows, item.tr.sender, item.tr.recipient);
      if i < |rows| {
        TotalsPut(rows, i, after[i]);
      } else {
        assert after[..|rows|] == rows;
      }
    }
  }

  // ---------------------------------------------------------------------------
  // A transaction's digests
  // ---------------------------------------------------------------------------

  function DigestsOf(tx: Tx): seq<Digest> {
    Directs(tx, |tx.clauses|) + Collect(Qualifying(tx, |tx.outputs|))
  }

  /** Row k names the clause's own parties and carries its value as MTR, as MTRG, or as neither. */
  ghost predicate OfClause(tx: Tx, k: nat, d: Digest)
    requires k < |tx.clauses|
  {
    var c := tx.clauses[k];
    && d.from == tx.origin
    && (c.to == Some(d.to) || (c.to == None && d.to == ZERO_ADDRESS))
    && (c.token == 0 ==> d.mtr == c.value && d.mtrg == 0)
    && (c.token == 1 ==> d.mtr == 0 && d.mtrg == c.value)
    && (c.token > 1 ==> d.mtr == 0 && d.mtrg == 0)
    && d.kind == c.kind && d.reverted == tx.reverted && d.clauseIndexs == [k]
  }

  /** The pair's transfers of a token in one output, added up. */
  function PaidIn(transfers: seq<Transfer>, from: Address, to: Address, token: nat): int {
    if transfers == [] then 0
    else
      var front, tr := transfers[..|transfers| - 1], transfers[|transfers| - 1];
      PaidIn(front, from, to, token)
      + (if tr.sender == from && tr.recipient == to && tr.token == token then tr.amount else 0)
  }

  /** The pair's transfers of a token in the outputs of the script-engine clauses below n, added up. */
  function Paid(tx: Tx, n: nat, from: Address, to: Address, token: nat): int
    requires n <= |tx.outputs|
  {
    if n == 0 then 0
    else
      Paid(tx, n - 1, from, to, token)
      + (if n - 1 < |tx.clauses| && tx.clauses[n - 1].scripted then PaidIn(tx.outputs[n - 1], from, to, token) else 0)
  }

  ghost predicate Among(transfers: seq<Transfer>, from: Address, to: Address) {
    exists i :: 0 <= i < |transfers| && transfers[i].sender == from && transfers[i].recipient == to
  }

  /** Clause k is a script-engine clause whose output has a transfer of the pair. */
  ghost predicate Pays(tx: Tx, k: nat, from: Address, to: Address) {
    k < |tx.clauses| && k < |tx.outputs| && tx.clauses[k].scripted && Among(tx.outputs[k], from, to)
  }

  /** A row per pair: what the script-engine clauses pay of both tokens, and each clause that pays, once. */
  ghost predicate OfPair(tx: Tx, d: Digest) {
    && d.mtr == Paid(tx, |tx.outputs|, d.from, d.to, 0)
    && d.mtrg == Paid(tx, |tx.outputs|, d.from, d.to, 1)
    && d.kind == "Transfer" && !d.reverted
    && NoRepeats(d.clauseIndexs)
    && (forall k: nat :: k in d.clauseIndexs <==> Pays(tx, k, d.from, d.to))
  }

  ghost predicate IsFrom(rows: seq<Digest>, n: nat, from: Address, to: Address) {
    exists j: nat :: n <= j < |rows| && rows[j].from == from && rows[j].to == to
  }

  /** The system's own transactions are those of the zero address that are not reverted. */
  predicate IsSystem(tx: Tx) {
    tx.origin == ZERO_ADDRESS && !tx.reverted
  }

  /**
   The digests of a transaction are one row per clause, in order; and, for the system's own transactions, after them
   one row for each pair that a script-engine clause makes a transfer for, and no other row.
   */
  lemma DigestsAre(tx: Tx)
    ensures var rows, n := DigestsOf(tx), |tx.clauses|;
            && |rows| >= n
            && (forall k: nat :: k < n ==> OfClause(tx, k, rows[k]))
            && (!IsSystem(tx) ==> |rows| == n)
            && (forall j: nat :: n <= j < |rows| ==> OfPair(tx, rows[j]))
            && (forall i: nat, j: nat {:trigger rows[i], rows[j]} ::
                  n <= i < j < |rows| ==> rows[i].from != rows[j].from || rows[i].to != rows[j].to)
            && (IsSystem(tx) ==> forall from: Address, to: Address ::
                  IsFrom(rows, n, from, to) <==> exists k: nat :: Pays(tx, k, from, to))
  {
    var rows, n := DigestsOf(tx), |tx.clauses|;
    forall k: nat | k < n
      ensures OfClause(tx, k, rows[k])
    {
      assert rows[k] == Direct(tx, k);
    }
    PairRowsAre(tx, rows);
    if IsSystem(tx) {
      forall from: Address, to: Address
        ensures IsFrom(rows, n, from, to) <==> exists k: nat :: Pays(tx, k, from, to)
      {
        RowIffPaid(tx, Qualifying(tx, |tx.outputs|), from, to);
      }
    }
  }

  lemma PairRowsAre(tx: Tx, rows: seq<Digest>)
    requires rows == DigestsOf(tx)
    ensures !IsSystem(tx) ==> |rows| == |tx.clauses|
    ensures forall j: nat :: |tx.clauses| <= j < |rows| ==> OfPair(tx, rows[j])
    ensures forall i: nat, j: nat {:trigger rows[i], rows[j]} ::
              |tx.clauses| <= i < j < |rows| ==> rows[i].from != rows[j].from || rows[i].to != rows[j].to
  {
    var n := |tx.clauses|;
    var pairs := Collect(Qualifying(tx, |tx.outputs|));
    assert forall j: nat :: n <= j < |rows| ==> rows[j] == pairs[j - n];
    if IsSystem(tx) {
      PairsAreExact(tx, pairs);
    } else {
      NothingQualifies(tx, |tx.outputs|);
    }
  }

  lemma PairsAreExact(tx: Tx, pairs: seq<Digest>)
    requires IsSystem(tx) && pairs == Collect(Qualifying(tx, |tx.outputs|))
    ensures PairsDiffer(pairs)
    ensures forall j: nat :: j < |pairs| ==> OfPair(tx, pairs[j])
  {
    CollectIsExact(Qualifying(tx, |tx.outputs|));
    forall j: nat | j < |pairs|
      ensures OfPair(tx, pairs[j])
    {
      assert pairs[j] in pairs;
      ExactIsOfPair(tx, pairs[j]);
    }
  }

  lemma {:induction false} NothingQualifies(tx: Tx, n: nat)
    requires n <= |tx.outputs| && !IsSystem(tx)
    ensures Qualifying(tx, n) == []
  {
    if n > 0 {
      NothingQualifies(tx, n - 1);
    }
  }

  lemma RowIffPaid(tx: Tx, items: seq<Item>, from: Address, to: Address)
    requires IsSystem(tx) && items == Qualifying(tx, |tx.outputs|)
    ensures IsFrom(DigestsOf(tx), |tx.clauses|, from, to) <==> exists k: nat :: Pays(tx, k, from, to)
  {
    var rows, n, pairs := DigestsOf(tx), |tx.clauses|, Collect(items);
    CollectIsExact(items);
    if j: nat :| n <= j < |rows| && rows[j].from == from && rows[j].to == to {
      assert rows[j] == pairs[j - n] && pairs[j - n] in pairs;
      var k: nat :| Has(items, from, to, k);
      HasIffPays(tx, |tx.outputs|, from, to, k);
    }
    if k: nat :| Pays(tx, k, from, to) {
      HasIffPays(tx, |tx.outputs|, from, to, k);
      assert Occurs(items, from, to);
      var i := Find(pairs, from, to);
      assert rows[n + i] == pairs[i];
    }
  }

  lemma ExactIsOfPair(tx: Tx, d: Digest)
    requires IsSystem(tx) && RowExact(Qualifying(tx, |tx.outputs|), d)
    ensures OfPair(tx, d)
  {
    SumIsPaid(tx, |tx.outputs|, d.from, d.to, 0);
    SumIsPaid(tx, |tx.outputs|, d.from, d.to, 1);
    forall k: nat
      ensures k in d.clauseIndexs <==> Pays(tx, k, d.from, d.to)
    {
      HasIffPays(tx, |tx.outputs|, d.from, d.to, k);
    }
  }

  lemma {:induction false} SumIsPaid(tx: Tx, n: nat, from: Address, to: Address, token: nat)
    requires IsSystem(tx) && n <= |tx.outputs|
    ensures SumFor(Qualifying(tx, n), from, to, token) == Paid(tx, n, from, to, token)
  {
    if n > 0 {
      SumIsPaid(tx, n - 1, from, to, token);
      if Qualifies(tx, n - 1) {
        SumOfItems(Qualifying(tx, n - 1), n - 1, tx.outputs[n - 1], from, to, token);
      }
    }
  }

  lemma {:induction false} SumOfItems(
      items: seq<Item>, k: nat, transfers: seq<Transfer>, from: Address, to: Address, token: nat)
    ensures SumFor(items + Items(k, transfers), from, to, token)
         == SumFor(items, from, to, token) + PaidIn(transfers, from, to, token)
  {
    if transfers == [] {
      assert items + Items(k, transfers) == items;
    } else {
      var front, all := transfers[..|transfers| - 1], items + Items(k, transfers);
      assert all[..|all| - 1] == items + Items(k, front);
      SumOfItems(items, k, front, from, to, token);
    }
  }

  lemma {:induction false} HasIffPays(tx: Tx, n: nat, from: Address, to: Address, k: nat)
    requires IsSystem(tx) && n <= |tx.outputs|
    ensures Has(Qualifying(tx, n), from, to, k) <==> k < n && Pays(tx, k, from, to)
  {
    if n > 0 {
      HasIffPays(tx, n - 1, from, to, k);
      if Qualifies(tx, n - 1) {
        HasInItems(Qualifying(tx, n - 1), n - 1, tx.outputs[n - 1], from, to, k);
      }
    }
  }

  lemma {:induction false} HasInItems(
      items: seq<Item>, k: nat, transfers: seq<Transfer>, from: Address, to: Address, at: nat)
    ensures Has(items + Items(k, transfers), from, to, at)
       <==> Has(items, from, to, at) || (at == k && Among(transfers, from, to))
  {
    if transfers == [] {
      assert items + Items(k, transfers) == items;
    } else {
      var front, all := transfers[..|transfers| - 1], items + Items(k, transfers);
      assert all[..|all| - 1] == items + Items(k, front);
      HasInItems(items, k, front, from, to, at);
    }
  }

  /** The unique index on from, to and each of the clause indexes. */
  ghost predicate Unique(rows: seq<Digest>) {
    forall i: nat, j: nat {:trigger rows[i], rows[j]} :: i < j < |rows| ==> !Clash(rows[i], rows[j])
  }

  ghost predicate Clash(a: Digest, b: Digest) {
    a.from == b.from && a.to == b.to && exists k :: k in a.clauseIndexs && k in b.clauseIndexs
  }

  /** A script-engine clause of the system has a transfer from the origin to the clause's own target. */
  ghost predicate PaysItsTarget(tx: Tx, k: nat) {
    IsSystem(tx) && k < |tx.clauses| && Pays(tx, k, tx.origin, Target(tx.clauses[k]))
  }

  /** The unique index accepts a transaction's digests exactly when no clause of the system pays its own target. */
  lemma IndexAcceptsIff(tx: Tx)
    ensures Unique(DigestsOf(tx)) <==> forall k: nat :: !PaysItsTarget(tx, k)
  {
    var rows, n := DigestsOf(tx), |tx.clauses|;
    DigestsAre(tx);
    if k: nat :| PaysItsTarget(tx, k) {
      assert IsFrom(rows, n, tx.origin, Target(tx.clauses[k]));
      var j: nat :| n <= j < |rows| && rows[j].from == tx.origin && rows[j].to == Target(tx.clauses[k]);
      assert OfClause(tx, k, rows[k]) && OfPair(tx, rows[j]);
      assert k in rows[k].clauseIndexs && k in rows[j].clauseIndexs;
      assert Clash(rows[k], rows[j]);
    } else {
      forall i: nat, j: nat {:trigger rows[i], rows[j]} | i < j < |rows|
        ensures !Clash(rows[i], rows[j])
      {
        if j < n {
          assert OfClause(tx, i, rows[i]) && OfClause(tx, j, rows[j]);
        } else if i < n {
          assert OfClause(tx, i, rows[i]) && OfPair(tx, rows[j]);
          assert !PaysItsTarget(tx, i);
        }
      }
    }
  }

  class PosCMD {
    var txDigestsCache: seq<Digest>

    /** No row is dropped for an id that is already there: the ids never repeat. */
    method UpdateTxDigests(tx: Tx)
      modifies this
      ensures txDigestsCache == old(txDigestsCache) + DigestsOf(tx)
    {
      var digests, ids := DirectDigests(tx);
      var kblockDigests: seq<Digest> := [];
      for clauseIndex := 0 to |tx.outputs|
        invariant kblockDigests == Collect(Qualifying(tx, clauseIndex))
        invariant txDigestsCache == old(txDigestsCache)
      {
        if !tx.reverted && tx.origin == ZERO_ADDRESS && clauseIndex < |tx.clauses| && tx.clauses[clauseIndex].scripted {
          kblockDigests :=
            CollectOutput(kblockDigests, Qualifying(tx, clauseIndex), clauseIndex, tx.outputs[clauseIndex]);
        }
      }
      CollectIsExact(Qualifying(tx, |tx.outputs|));
      digests := AppendNew(digests, ids, kblockDigests);
      txDigestsCache := txDigestsCache + digests;
    }
  }

  method DirectDigests(tx: Tx) returns (digests: seq<Digest>, ids: set<Id>)
    ensures digests == Directs(tx, |tx.clauses|)
    ensures forall id :: id in ids ==> id.ClauseId?
  {
    digests, ids := [], {};
    for clauseIndex := 0 to |tx.clauses|
      invariant digests == Directs(tx, clauseIndex)
      invariant forall id :: id in ids ==> id.ClauseId? && id.clauseIndex < clauseIndex
    {
      var clause := tx.clauses[clauseIndex];
      var to := if clause.to.Some? then clause.to.value else ZERO_ADDRESS;
      var d := Digest(tx.origin, to, if clause.token == 0 then clause.value else 0,
                      if clause.token == 1 then clause.value else 0, clause.kind, tx.reverted, [clauseIndex]);
      var id := ClauseId(d.from, d.to, clauseIndex);
      if id !in ids {
        ids := ids + {id};
        digests := digests + [d];
      }
    }
  }

  lemma CollectStep(items: seq<Item>, k: nat, transfers: seq<Transfer>, n: nat)
    requires n < |transfers|
    ensures Collect(items + Items(k, transfers[..n + 1]))
         == AddTransfer(Collect(items + Items(k, transfers[..n])), Item(k, transfers[n]))
  {
    var before, after := items + Items(k, transfers[..n]), items + Items(k, transfers[..n + 1]);
    assert transfers[..n + 1][..n] == transfers[..n];
    assert after == before + [Item(k, transfers[n])];
    assert after[..|after| - 1] == before;
  }

  method AddToRows(rows: seq<Digest>, clauseIndex: nat, tr: Transfer) returns (r: seq<Digest>)
    ensures r == AddTransfer(rows, Item(clauseIndex, tr))
  {
    var mtr := if tr.token == 0 then tr.amount else 0;
    var mtrg := if tr.token == 1 then tr.amount else 0;
    var at := Find(rows, tr.sender, tr.recipient);
    if at < |rows| {
      var d := rows[at];
      if clauseIndex !in d.clauseIndexs {
        d := d.(clauseIndexs := d.clauseIndexs + [clauseIndex]);
      }
      r := rows[at := d.(mtr := d.mtr + mtr, mtrg := d.mtrg + mtrg)];
    } else {
      r := rows + [Digest(tr.sender, tr.recipient, mtr, mtrg, "Transfer", false, [clauseIndex])];
    }
  }

  /** The transfers of one output. The rows are those of an object whose keys keep the order they are added in. */
  method CollectOutput(rows: seq<Digest>, ghost items: seq<Item>, clauseIndex: nat, transfers: seq<Transfer>)
    returns (r: seq<Digest>)
    requires rows == Collect(items)
    ensures r == Collect(items + Items(clauseIndex, transfers))
  {
    r := rows;
    assert transfers[..0] == [] && items + [] == items;
    for logIndex := 0 to |transfers|
      invariant r == Collect(items + Items(clauseIndex, transfers[..logIndex]))
    {
      r := AddToRows(r, clauseIndex, transfers[logIndex]);
      CollectStep(items, clauseIndex, transfers, logIndex);
    }
    assert transfers[..|transfers|] == transfers;
  }

  method AppendNew(digests: seq<Digest>, ids: set<Id>, rows: seq<Digest>) returns (r: seq<Digest>)
    requires PairsDiffer(rows) && forall id :: id in ids ==> id.ClauseId?
    ensures r == digests + rows
  {
    r := digests;
    var seen := ids;
    for i := 0 to |rows|
      invariant r == digests + rows[..i]
      invariant forall id :: id in seen ==>
                  id.ClauseId? || exists j: nat :: j < i && id == PairId(rows[j].from, rows[j].to)
    {
      var d := rows[i];
      var id := PairId(d.from, d.to);
      if id !in seen {
        seen := seen + {id};
        r := r + [d];
      }
    }
  }
}
