/** The account write-back cache as written, and the block processing that drives it. */
module AccountCache {
  import opened Common
  import opened AccountBalances

  class AccountCache {
    const node: Node
    var accts: map<Address, Acct>
    var db: map<Address, Acct>
    ghost var repaired: bool

    constructor (node: Node, db: map<Address, Acct>)
      ensures this.node == node && Abs() == Accounts(map[], db, false)
    {
      this.node, this.db, accts, repaired := node, db, map[], false;
    }

    ghost function Abs(): Accounts
      reads this
    {
      Accounts(accts, db, repaired)
    }

    method SetDefault(addr: Address, num: nat)
      modifies this
      ensures Abs() == AccountBalances.SetDefault(old(Abs()), addr, num)
    {
      if addr in accts {
        return;
      }
      if addr !in db {
        var newAcct := Acct(ZERO_BALANCE, num);
        db := db[addr := newAcct];
        accts := accts[addr := newAcct];
      } else {
        accts := accts[addr := db[addr]];
      }
    }

    /** Take all four balances from the chain when one of them differs. */
    method FixAccount(addr: Address, num: nat)
      requires addr in accts
      modifies this
      ensures accts.Keys == old(accts).Keys && db == old(db) && repaired
      ensures accts[addr] == if old(accts)[addr].bal == node(addr, num) then old(accts)[addr]
                             else Acct(node(addr, num), num)
      ensures forall a :: a in accts && a != addr ==> accts[a] == old(accts)[a]
    {
      var chainAcc := node(addr, num);
      if accts[addr].bal != chainAcc {
        accts := accts[addr := Acct(chainAcc, num)];
      }
      repaired := true;
    }

    method Minus(addr: Address, token: Token, amount: int, num: nat)
      modifies this
      ensures Abs() == AccountBalances.Minus(node, old(Abs()), addr, token, amount, num)
    {
      if addr == ZERO_ADDRESS || amount <= 0 {
        return;
      }
      SetDefault(addr, num);
      var acct := accts[addr];
      if token == MTR {
        accts := accts[addr := acct.(bal := acct.bal.(mtr := acct.bal.mtr - amount))];
        if accts[addr].bal.mtr < 0 {
          FixAccount(addr, num);
        }
      }
      if token == MTRG {
        accts := accts[addr := acct.(bal := acct.bal.(mtrg := acct.bal.mtrg - amount))];
        if accts[addr].bal.mtrg < 0 {
          FixAccount(addr, num);
        }
      }
      Touch(addr, num);
    }

    method Plus(addr: Address, token: Token, amount: int, num: nat)
      modifies this
      ensures Abs() == AccountBalances.Plus(node, old(Abs()), addr, token, amount, num)
    {
      if amount <= 0 {
        return;
      }
      SetDefault(addr, num);
      var acct := accts[addr];
      if token == MTR {
        accts := accts[addr := acct.(bal := acct.bal.(mtr := acct.bal.mtr + amount))];
        if accts[addr].bal.mtr < 0 {
          FixAccount(addr, num);
        }
      }
      if token == MTRG {
        accts := accts[addr := acct.(bal := acct.bal.(mtrg := acct.bal.mtrg + amount))];
        if accts[addr].bal.mtrg < 0 {
          FixAccount(addr, num);
        }
      }
      Touch(addr, num);
    }

    method Bound(addr: Address, token: Token, amount: int, num: nat)
      modifies this
      ensures Abs() == AccountBalances.Bound(node, old(Abs()), addr, token, amount, num)
    {
      SetDefault(addr, num);
      var acct := accts[addr];
      if token == MTR {
        var moved := acct.bal.(mtr := acct.bal.mtr - amount, mtrBounded := acct.bal.mtrBounded + amount);
        accts := accts[addr := acct.(bal := moved)];
      }
      if token == MTRG {
        var moved := acct.bal.(mtrg := acct.bal.mtrg - amount, mtrgBounded := acct.bal.mtrgBounded + amount);
        accts := accts[addr := acct.(bal := moved)];
        if accts[addr].bal.mtrg < 0 {
          FixAccount(addr, num);
        }
      }
      Touch(addr, num);
    }

    method Unbound(addr: Address, token: Token, amount: int, num: nat)
      modifies this
      ensures Abs() == AccountBalances.Unbound(node, old(Abs()), addr, token, amount, num)
    {
      SetDefault(addr, num);
      var acct := accts[addr];
      if token == MTR {
        var moved := acct.bal.(mtr := acct.bal.mtr + amount, mtrBounded := acct.bal.mtrBounded - amount);
        accts := accts[addr := acct.(bal := moved)];
      }
      if token == MTRG {
        var moved := acct.bal.(mtrg := acct.bal.mtrg + amount, mtrgBounded := acct.bal.mtrgBounded - amount);
        accts := accts[addr := acct.(bal := moved)];
        if accts[addr].bal.mtrgBounded < 0 {
          FixAccount(addr, num);
        }
      }
      Touch(addr, num);
    }

    /** saveToDB, which saves all documents concurrently, then clean. */
    method SaveToDB()
      modifies this
      ensures Abs() == Saved(old(Abs()))
    {
      var todo := accts.Keys;
      ghost var before := db;
      while todo != {}
        invariant todo <= accts.Keys && accts == old(accts) && repaired == old(repaired)
        invariant db.Keys == before.Keys + (accts.Keys - todo)
        invariant forall a :: a in db ==> db[a] == if a in accts.Keys - todo then accts[a] else before[a]
        decreases todo
      {
        var a :| a in todo;
        db := db[a := accts[a]];
        todo := todo - {a};
      }
      assert db == before + accts;
      accts := map[];
    }

    method Touch(addr: Address, num: nat)
      requires addr in accts
      modifies this`accts
      ensures accts == old(accts)[addr := old(accts)[addr].(lastUpdate := num)]
    {
      accts := accts[addr := accts[addr].(lastUpdate := num)];
    }
  }

  /** updateMovements and the staking handlers of one transaction, then its fee. */
  method ProcessTx(cache: AccountCache, tx: Tx, num: nat)
    modifies cache
    ensures cache.Abs() == ApplyTx(cache.node, old(cache.Abs()), tx, num)
  {
    if !tx.reverted {
      for i := 0 to |tx.moves|
        invariant cache.Abs() == ApplyMoves(cache.node, old(cache.Abs()), tx.moves[..i], num)
      {
        assert tx.moves[..i + 1][..i] == tx.moves[..i];
        var m := tx.moves[i];
        cache.Minus(m.from, m.token, m.amount, num);
        cache.Plus(m.to, m.token, m.amount, num);
      }
      assert tx.moves[..|tx.moves|] == tx.moves;
    }
    ghost var moved := cache.Abs();
    for i := 0 to |tx.stakes|
      invariant cache.Abs() == ApplyStakes(cache.node, moved, tx.stakes[..i], num)
    {
      assert tx.stakes[..i + 1][..i] == tx.stakes[..i];
      match tx.stakes[i] {
        case BoundEvent(owner, token, amount) => cache.Bound(owner, token, amount, num);
        case UnboundEvent(owner, token, amount) => cache.Unbound(owner, token, amount, num);
      }
    }
    assert tx.stakes[..|tx.stakes|] == tx.stakes;
    cache.Minus(tx.gasPayer, MTR, tx.paid, num);
  }

  /** The fee and reward part of processBlock. */
  method ProcessBlock(cache: AccountCache, b: Block, collector: Address)
    modifies cache
    ensures cache.Abs() == ApplyBlock(cache.node, old(cache.Abs()), b, collector)
  {
    var actualReward := 0;
    for i := 0 to |b.txs|
      invariant actualReward == ActualReward(b.txs[..i])
      invariant cache.Abs() == ApplyTxs(cache.node, old(cache.Abs()), b.txs[..i], b.num)
    {
      assert b.txs[..i + 1][..i] == b.txs[..i];
      ProcessTx(cache, b.txs[i], b.num);
      if b.txs[i].origin != ZERO_ADDRESS {
        actualReward := actualReward + b.txs[i].reward;
      }
    }
    assert b.txs[..|b.txs|] == b.txs;
    if actualReward > 0 {
      cache.Plus(if collector == ZERO_ADDRESS then b.beneficiary else collector, MTR, actualReward, b.num);
    }
  }
}
