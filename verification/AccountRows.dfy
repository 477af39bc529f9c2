/**
 The account rows that a block's processing stores on the way, before any save: an account that is met for the first
 time gets a row with zero balances at once, and no other row is written.
 */
module AccountRows {
  import opened AccountBalances
  import opened AccountReplay
  import opened Common

  predicate AllStored(s: Accounts) {
    s.accts.Keys <= s.db.Keys
  }

  /** Cached accounts stay cached, stored rows as they are; new rows are those of accounts new to the cache. */
  ghost predicate RowsKept(s: Accounts, t: Accounts, num: nat) {
    && s.accts.Keys <= t.accts.Keys && (AllStored(s) ==> AllStored(t))
    && (forall a: Address :: a in s.db ==> a in t.db && t.db[a] == s.db[a])
    && (forall a: Address :: a in t.db && a !in s.db ==>
          a in t.accts && a !in s.accts && t.db[a] == Acct(ZERO_BALANCE, num))
  }

  lemma WriteKeepsRows(node: Node, s: Accounts, a: Address, num: nat, b: Balance, bad: bool)
    ensures RowsKept(s, Write(node, SetDefault(s, a, num), a, num, b, bad), num)
  {
  }

  lemma MinusKeepsRows(node: Node, s: Accounts, a: Address, token: Token, amount: int, num: nat)
    ensures RowsKept(s, Minus(node, s, a, token, amount, num), num)
  {
    var b := SetDefault(s, a, num).accts[a].bal;
    WriteKeepsRows(node, s, a, num, b.(mtr := b.mtr - amount), b.mtr - amount < 0);
    WriteKeepsRows(node, s, a, num, b.(mtrg := b.mtrg - amount), b.mtrg - amount < 0);
  }

  lemma PlusKeepsRows(node: Node, s: Accounts, a: Address, token: Token, amount: int, num: nat)
    ensures RowsKept(s, Plus(node, s, a, token, amount, num), num)
  {
    var b := SetDefault(s, a, num).accts[a].bal;
    WriteKeepsRows(node, s, a, num, b.(mtr := b.mtr + amount), b.mtr + amount < 0);
    WriteKeepsRows(node, s, a, num, b.(mtrg := b.mtrg + amount), b.mtrg + amount < 0);
  }

  lemma BoundKeepsRows(node: Node, s: Accounts, a: Address, token: Token, amount: int, num: nat)
    ensures RowsKept(s, Bound(node, s, a, token, amount, num), num)
  {
  }

  lemma UnboundKeepsRows(node: Node, s: Accounts, a: Address, token: Token, amount: int, num: nat)
    ensures RowsKept(s, Unbound(node, s, a, token, amount, num), num)
  {
  }

  lemma {:induction false} MovesKeepRows(node: Node, s: Accounts, moves: seq<Move>, num: nat)
    ensures RowsKept(s, ApplyMoves(node, s, moves, num), num)
  {
    if moves != [] {
      var d, m := ApplyMoves(node, s, moves[..|moves| - 1], num), moves[|moves| - 1];
      MovesKeepRows(node, s, moves[..|moves| - 1], num);
      MinusKeepsRows(node, d, m.from, m.token, m.amount, num);
      PlusKeepsRows(node, Minus(node, d, m.from, m.token, m.amount, num), m.to, m.token, m.amount, num);
    }
  }

  lemma {:induction false} StakesKeepRows(node: Node, s: Accounts, stakes: seq<Stake>, num: nat)
    ensures RowsKept(s, ApplyStakes(node, s, stakes, num), num)
  {
    if stakes != [] {
      var d, e := ApplyStakes(node, s, stakes[..|stakes| - 1], num), stakes[|stakes| - 1];
      StakesKeepRows(node, s, stakes[..|stakes| - 1], num);
      BoundKeepsRows(node, d, e.owner, e.token, e.amount, num);
      UnboundKeepsRows(node, d, e.owner, e.token, e.amount, num);
    }
  }

  lemma TxKeepsRows(node: Node, s: Accounts, tx: Tx, num: nat)
    ensures RowsKept(s, ApplyTx(node, s, tx, num), num)
  {
    var moved := if tx.reverted then s else ApplyMoves(node, s, tx.moves, num);
    MovesKeepRows(node, s, tx.moves, num);
    StakesKeepRows(node, moved, tx.stakes, num);
    MinusKeepsRows(node, ApplyStakes(node, moved, tx.stakes, num), tx.gasPayer, MTR, tx.paid, num);
  }

  lemma {:induction false} TxsKeepRows(node: Node, s: Accounts, txs: seq<Tx>, num: nat)
    ensures RowsKept(s, ApplyTxs(node, s, txs, num), num)
  {
    if txs != [] {
      TxsKeepRows(node, s, txs[..|txs| - 1], num);
      TxKeepsRows(node, ApplyTxs(node, s, txs[..|txs| - 1], num), txs[|txs| - 1], num);
    }
  }

  lemma BlockKeepsRows(node: Node, s: Accounts, b: Block, collector: Address)
    ensures RowsKept(s, ApplyBlock(node, s, b, collector), b.num)
  {
    var d := ApplyTxs(node, s, b.txs, b.num);
    TxsKeepRows(node, s, b.txs, b.num);
    PlusKeepsRows(node, d, if collector == ZERO_ADDRESS then b.beneficiary else collector, MTR, ActualReward(b.txs),
                  b.num);
  }

  /** A save stores every cached account as it is, keeps the other rows, and empties the cache. */
  lemma SaveStoresAll(s: Accounts, a: Address)
    ensures var t := Saved(s);
            && t.accts == map[] && AllStored(t)
            && (a in t.db <==> a in s.accts || a in s.db)
            && (a in s.accts ==> t.db[a] == s.accts[a])
            && (a in s.db && a !in s.accts ==> t.db[a] == s.db[a])
  {
  }

  /** When every cached account is stored, a block leaves a row for exactly the accounts stored before and those it
      changes: the old rows as they were, the new ones with zero balances. */
  lemma BlockStoresRows(node: Node, s: Accounts, b: Block, collector: Address, a: Address)
    requires AllStored(s)
    ensures var t := ApplyBlock(node, s, b, collector);
            && AllStored(t)
            && (a in t.db <==> a in s.db || OfBlock(b, collector, a) != [])
            && (a in t.db ==> t.db[a] == if a in s.db then s.db[a] else Acct(ZERO_BALANCE, b.num))
  {
    BlockKeepsRows(node, s, b, collector);
    BlockIsReplay(node, s, b, collector);
    assert Dated(s, ApplyBlock(node, s, b, collector), a, b.num, OfBlock(b, collector, a));
  }
}
