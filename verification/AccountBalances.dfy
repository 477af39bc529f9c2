/**
 The account operations and the account part of block processing on values, and the conservation laws.
 `AccountCache` is the cache itself, changed in place, and is proved against these functions.
 */
module AccountBalances {
  import opened Common
  import opened Sums

  datatype Token = MTR | MTRG

  /** An account's balances on the chain right after a block. */
  type Node = (Address, nat) -> Balance

  /** The cached accounts, the account table, and whether a repair from the chain has been made. */
  datatype Accounts = Accounts(accts: map<Address, Acct>, db: map<Address, Acct>, repaired: bool)

  // ---------------------------------------------------------------------------
  // The operations on values
  // ---------------------------------------------------------------------------

  /** An account that is cached nowhere and not stored is created with zero balances, and stored at once. */
  function SetDefault(s: Accounts, a: Address, num: nat): Accounts {
    if a in s.accts then s
    else if a in s.db then s.(accts := s.accts[a := s.db[a]])
    else s.(accts := s.accts[a := Acct(ZERO_BALANCE, num)], db := s.db[a := Acct(ZERO_BALANCE, num)])
  }

  /** The balances become `b`, or when that is `bad` those of the chain. */
  function Write(node: Node, s: Accounts, a: Address, num: nat, b: Balance, bad: bool): Accounts {
    s.(accts := s.accts[a := Acct(if bad then node(a, num) else b, num)], repaired := s.repaired || bad)
  }

  function Minus(node: Node, s: Accounts, a: Address, token: Token, amount: int, num: nat): Accounts {
    if a == ZERO_ADDRESS || amount <= 0 then s
    else
      var d := SetDefault(s, a, num);
      var b := d.accts[a].bal;
      match token
      case MTR => Write(node, d, a, num, b.(mtr := b.mtr - amount), b.mtr - amount < 0)
      case MTRG => Write(node, d, a, num, b.(mtrg := b.mtrg - amount), b.mtrg - amount < 0)
  }

  function Plus(node: Node, s: Accounts, a: Address, token: Token, amount: int, num: nat): Accounts {
    if amount <= 0 then s
    else
      var d := SetDefault(s, a, num);
      var b := d.accts[a].bal;
      match token
      case MTR => Write(node, d, a, num, b.(mtr := b.mtr + amount), b.mtr + amount < 0)
      case MTRG => Write(node, d, a, num, b.(mtrg := b.mtrg + amount), b.mtrg + amount < 0)
  }

  /** Only the MTRG balance is checked. */
  function Bound(node: Node, s: Accounts, a: Address, token: Token, amount: int, num: nat): Accounts {
    var d := SetDefault(s, a, num);
    var b := d.accts[a].bal;
    match token
    case MTR => Write(node, d, a, num, b.(mtr := b.mtr - amount, mtrBounded := b.mtrBounded + amount), false)
    case MTRG =>
      Write(node, d, a, num, b.(mtrg := b.mtrg - amount, mtrgBounded := b.mtrgBounded + amount), b.mtrg - amount < 0)
  }

  /** Only the bounded MTRG balance is checked. */
  function Unbound(node: Node, s: Accounts, a: Address, token: Token, amount: int, num: nat): Accounts {
    var d := SetDefault(s, a, num);
    var b := d.accts[a].bal;
    match token
    case MTR => Write(node, d, a, num, b.(mtr := b.mtr + amount, mtrBounded := b.mtrBounded - amount), false)
    case MTRG =>
      Write(node, d, a, num, b.(mtrg := b.mtrg + amount, mtrgBounded := b.mtrgBounded - amount),
            b.mtrgBounded - amount < 0)
  }

  // ---------------------------------------------------------------------------
  // A block
  // ---------------------------------------------------------------------------

  /** A native transfer, or a Transfer event of the MTR or an MTRG system contract. */
  datatype Move = Move(token: Token, from: Address, to: Address, amount: int)
  datatype Stake =
    | BoundEvent(owner: Address, token: Token, amount: nat)
    | UnboundEvent(owner: Address, token: Token, amount: nat)
  datatype Tx = Tx(reverted: bool, moves: seq<Move>, stakes: seq<Stake>, origin: Address, gasPayer: Address, paid: int,
                   reward: int)
  datatype Block = Block(num: nat, txs: seq<Tx>, beneficiary: Address)

  function ApplyMoves(node: Node, s: Accounts, moves: seq<Move>, num: nat): Accounts {
    if moves == [] then s
    else
      var d, m := ApplyMoves(node, s, moves[..|moves| - 1], num), moves[|moves| - 1];
      Plus(node, Minus(node, d, m.from, m.token, m.amount, num), m.to, m.token, m.amount, num)
  }

  function ApplyStakes(node: Node, s: Accounts, stakes: seq<Stake>, num: nat): Accounts {
    if stakes == [] then s
    else
      var d := ApplyStakes(node, s, stakes[..|stakes| - 1], num);
      match stakes[|stakes| - 1]
      case BoundEvent(owner, token, amount) => Bound(node, d, owner, token, amount, num)
      case UnboundEvent(owner, token, amount) => Unbound(node, d, owner, token, amount, num)
  }

  /** A reverted transaction moves nothing, but its fee is charged. */
  function ApplyTx(node: Node, s: Accounts, tx: Tx, num: nat): Accounts {
    var moved := if tx.reverted then s else ApplyMoves(node, s, tx.moves, num);
    Minus(node, ApplyStakes(node, moved, tx.stakes, num), tx.gasPayer, MTR, tx.paid, num)
  }

  function ApplyTxs(node: Node, s: Accounts, txs: seq<Tx>, num: nat): Accounts {
    if txs == [] then s else ApplyTx(node, ApplyTxs(node, s, txs[..|txs| - 1], num), txs[|txs| - 1], num)
  }

  /** The rewards of the transactions that have an origin. */
  function ActualReward(txs: seq<Tx>): int {
    if txs == [] then 0
    else ActualReward(txs[..|txs| - 1]) + if txs[|txs| - 1].origin != ZERO_ADDRESS then txs[|txs| - 1].reward else 0
  }

  /** `collector` is the configured fee beneficiary; without one the block's own beneficiary is paid. */
  function ApplyBlock(node: Node, s: Accounts, b: Block, collector: Address): Accounts {
    var d := ApplyTxs(node, s, b.txs, b.num);
    if ActualReward(b.txs) <= 0 then d
    else Plus(node, d, if collector == ZERO_ADDRESS then b.beneficiary else collector, MTR, ActualReward(b.txs), b.num)
  }

  // ---------------------------------------------------------------------------
  // Conservation
  // ---------------------------------------------------------------------------

  function Worth(b: Balance, token: Token): int {
    match token
    case MTR => b.mtr + b.mtrBounded
    case MTRG => b.mtrg + b.mtrgBounded
  }

  /** The cached balance, else the stored one. */
  function Current(s: Accounts, a: Address): Balance {
    if a in s.accts then s.accts[a].bal else if a in s.db then s.db[a].bal else ZERO_BALANCE
  }

  ghost function Worths(s: Accounts, token: Token): map<Address, int> {
    map a | a in s.accts.Keys + s.db.Keys :: Worth(Current(s, a), token)
  }

  /** Balances and bounded balances of all accounts together. */
  ghost function Wealth(s: Accounts, token: Token): int {
    Sum(Worths(s, token))
  }

  lemma SetDefaultKeepsWealth(s: Accounts, a: Address, num: nat, token: Token)
    ensures var d := SetDefault(s, a, num);
            Wealth(d, token) == Wealth(s, token) && d.repaired == s.repaired && d.accts[a].bal == Current(s, a)
  {
    var d := SetDefault(s, a, num);
    var worth := Worth(Current(s, a), token);
    assert Worths(d, token) == Worths(s, token)[a := worth];
    SumPut(Worths(s, token), a, worth);
  }

  lemma WriteChangesWealth(node: Node, s: Accounts, a: Address, num: nat, b: Balance, bad: bool, token: Token)
    requires a in s.accts && !bad
    ensures Wealth(Write(node, s, a, num, b, bad), token)
         == Wealth(s, token) - Worth(s.accts[a].bal, token) + Worth(b, token)
  {
    assert Worths(Write(node, s, a, num, b, bad), token) == Worths(s, token)[a := Worth(b, token)];
    SumPut(Worths(s, token), a, Worth(b, token));
  }

  lemma MinusExact(node: Node, s: Accounts, a: Address, token: Token, amount: int, num: nat, kind: Token)
    ensures var t := Minus(node, s, a, token, amount, num);
            && (s.repaired ==> t.repaired)
            && (!t.repaired ==>
                  Wealth(t, kind)
                  == Wealth(s, kind) - (if kind == token && a != ZERO_ADDRESS && amount > 0 then amount else 0))
  {
    if a != ZERO_ADDRESS && amount > 0 && !Minus(node, s, a, token, amount, num).repaired {
      var d := SetDefault(s, a, num);
      SetDefaultKeepsWealth(s, a, num, kind);
      var b := d.accts[a].bal;
      var b' := if token == MTR then b.(mtr := b.mtr - amount) else b.(mtrg := b.mtrg - amount);
      assert Minus(node, s, a, token, amount, num) == Write(node, d, a, num, b', false);
      WriteChangesWealth(node, d, a, num, b', false, kind);
    }
  }

  lemma PlusExact(node: Node, s: Accounts, a: Address, token: Token, amount: int, num: nat, kind: Token)
    ensures var t := Plus(node, s, a, token, amount, num);
            && (s.repaired ==> t.repaired)
            && (!t.repaired ==> Wealth(t, kind) == Wealth(s, kind) + if kind == token && amount > 0 then amount else 0)
  {
    if amount > 0 && !Plus(node, s, a, token, amount, num).repaired {
      var d := SetDefault(s, a, num);
      SetDefaultKeepsWealth(s, a, num, kind);
      var b := d.accts[a].bal;
      var b' := if token == MTR then b.(mtr := b.mtr + amount) else b.(mtrg := b.mtrg + amount);
      assert Plus(node, s, a, token, amount, num) == Write(node, d, a, num, b', false);
      WriteChangesWealth(node, d, a, num, b', false, kind);
    }
  }

  lemma BoundKeepsWealth(node: Node, s: Accounts, a: Address, token: Token, amount: int, num: nat, kind: Token)
    ensures var t := Bound(node, s, a, token, amount, num);
            (s.repaired ==> t.repaired) && (!t.repaired ==> Wealth(t, kind) == Wealth(s, kind))
  {
    if !Bound(node, s, a, token, amount, num).repaired {
      var d := SetDefault(s, a, num);
      SetDefaultKeepsWealth(s, a, num, kind);
      var b := d.accts[a].bal;
      var bound := if token == MTR then b.(mtr := b.mtr - amount, mtrBounded := b.mtrBounded + amount)
                   else b.(mtrg := b.mtrg - amount, mtrgBounded := b.mtrgBounded + amount);
      assert Bound(node, s, a, token, amount, num) == Write(node, d, a, num, bound, false);
      WriteChangesWealth(node, d, a, num, bound, false, kind);
    }
  }

  lemma UnboundKeepsWealth(node: Node, s: Accounts, a: Address, token: Token, amount: int, num: nat, kind: Token)
    ensures var t := Unbound(node, s, a, token, amount, num);
            (s.repaired ==> t.repaired) && (!t.repaired ==> Wealth(t, kind) == Wealth(s, kind))
  {
    if !Unbound(node, s, a, token, amount, num).repaired {
      var d := SetDefault(s, a, num);
      SetDefaultKeepsWealth(s, a, num, kind);
      var b := d.accts[a].bal;
      var unbound := if token == MTR then b.(mtr := b.mtr + amount, mtrBounded := b.mtrBounded - amount)
                     else b.(mtrg := b.mtrg + amount, mtrgBounded := b.mtrgBounded - amount);
      assert Unbound(node, s, a, token, amount, num) == Write(node, d, a, num, unbound, false);
      WriteChangesWealth(node, d, a, num, unbound, false, kind);
    }
  }

  /** What the zero address sends: the only source of new coins among the moves. */
  function Created(moves: seq<Move>, kind: Token): int {
    if moves == [] then 0
    else
      var m := moves[|moves| - 1];
      Created(moves[..|moves| - 1], kind)
      + if m.from == ZERO_ADDRESS && m.token == kind && m.amount > 0 then m.amount else 0
  }

  function CreatedIn(txs: seq<Tx>, kind: Token): int {
    if txs == [] then 0
    else
      var tx := txs[|txs| - 1];
      CreatedIn(txs[..|txs| - 1], kind) + if tx.reverted then 0 else Created(tx.moves, kind)
  }

  /** The fees of the transactions with a payer. */
  function Fees(txs: seq<Tx>): int {
    if txs == [] then 0
    else
      var tx := txs[|txs| - 1];
      Fees(txs[..|txs| - 1]) + if tx.gasPayer != ZERO_ADDRESS && tx.paid > 0 then tx.paid else 0
  }

  lemma {:induction false} MovesConserve(node: Node, s: Accounts, moves: seq<Move>, num: nat, kind: Token)
    ensures var t := ApplyMoves(node, s, moves, num);
            && (s.repaired ==> t.repaired)
            && (!t.repaired ==> Wealth(t, kind) == Wealth(s, kind) + Created(moves, kind))
  {
    if moves != [] {
      var front, m := moves[..|moves| - 1], moves[|moves| - 1];
      MovesConserve(node, s, front, num, kind);
      var d := ApplyMoves(node, s, front, num);
      MinusExact(node, d, m.from, m.token, m.amount, num, kind);
      PlusExact(node, Minus(node, d, m.from, m.token, m.amount, num), m.to, m.token, m.amount, num, kind);
    }
  }

  lemma {:induction false} StakesConserve(node: Node, s: Accounts, stakes: seq<Stake>, num: nat, kind: Token)
    ensures var t := ApplyStakes(node, s, stakes, num);
            (s.repaired ==> t.repaired) && (!t.repaired ==> Wealth(t, kind) == Wealth(s, kind))
  {
    if stakes != [] {
      var front := stakes[..|stakes| - 1];
      StakesConserve(node, s, front, num, kind);
      var d := ApplyStakes(node, s, front, num);
      match stakes[|stakes| - 1]
      case BoundEvent(owner, token, amount) => BoundKeepsWealth(node, d, owner, token, amount, num, kind);
      case UnboundEvent(owner, token, amount) => UnboundKeepsWealth(node, d, owner, token, amount, num, kind);
    }
  }

  lemma {:induction false} TxsConserve(node: Node, s: Accounts, txs: seq<Tx>, num: nat, kind: Token)
    ensures var t := ApplyTxs(node, s, txs, num);
            && (s.repaired ==> t.repaired)
            && (!t.repaired ==>
                  Wealth(t, kind) == Wealth(s, kind) + CreatedIn(txs, kind) - (if kind == MTR then Fees(txs) else 0))
  {
    if txs != [] {
      var front, tx := txs[..|txs| - 1], txs[|txs| - 1];
      TxsConserve(node, s, front, num, kind);
      var d := ApplyTxs(node, s, front, num);
      var moved := if tx.reverted then d else ApplyMoves(node, d, tx.moves, num);
      MovesConserve(node, d, tx.moves, num, kind);
      StakesConserve(node, moved, tx.stakes, num, kind);
      MinusExact(node, ApplyStakes(node, moved, tx.stakes, num), tx.gasPayer, MTR, tx.paid, num, kind);
    }
  }

  /** The main result: over a block without a repair, balances and bounded balances together change by
      what the zero address sent, and for MTR by the reward paid out minus the fees charged. Staking
      changes nothing. */
  lemma BlockConserves(node: Node, s: Accounts, b: Block, collector: Address)
    ensures var t := ApplyBlock(node, s, b, collector);
            !t.repaired ==>
              && Wealth(t, MTR) == Wealth(s, MTR) + CreatedIn(b.txs, MTR) - Fees(b.txs)
                                   + (if ActualReward(b.txs) > 0 then ActualReward(b.txs) else 0)
              && Wealth(t, MTRG) == Wealth(s, MTRG) + CreatedIn(b.txs, MTRG)
  {
    var d := ApplyTxs(node, s, b.txs, b.num);
    var payee := if collector == ZERO_ADDRESS then b.beneficiary else collector;
    TxsConserve(node, s, b.txs, b.num, MTR);
    TxsConserve(node, s, b.txs, b.num, MTRG);
    PlusExact(node, d, payee, MTR, ActualReward(b.txs), b.num, MTR);
    PlusExact(node, d, payee, MTR, ActualReward(b.txs), b.num, MTRG);
  }

  /** saveToDB and clean: the cached accounts go to the table. */
  function Saved(s: Accounts): Accounts {
    s.(accts := map[], db := s.db + s.accts)
  }

  /** So the law holds across saves too. */
  lemma SaveKeepsWealth(s: Accounts, token: Token)
    ensures Wealth(Saved(s), token) == Wealth(s, token)
  {
    assert Worths(Saved(s), token) == Worths(s, token);
  }

  // ---------------------------------------------------------------------------
  // MTRG never goes below zero
  // ---------------------------------------------------------------------------

  predicate MtrgOk(b: Balance) {
    b.mtrg >= 0 && b.mtrgBounded >= 0
  }

  ghost predicate NodeOk(node: Node) {
    forall a, n :: MtrgOk(node(a, n))
  }

  ghost predicate AllMtrgOk(s: Accounts) {
    && (forall a :: a in s.accts ==> MtrgOk(s.accts[a].bal))
    && (forall a :: a in s.db ==> MtrgOk(s.db[a].bal))
  }

  lemma MinusKeepsMtrg(node: Node, s: Accounts, a: Address, token: Token, amount: int, num: nat)
    requires NodeOk(node) && AllMtrgOk(s)
    ensures AllMtrgOk(Minus(node, s, a, token, amount, num))
  {
  }

  lemma PlusKeepsMtrg(node: Node, s: Accounts, a: Address, token: Token, amount: int, num: nat)
    requires NodeOk(node) && AllMtrgOk(s)
    ensures AllMtrgOk(Plus(node, s, a, token, amount, num))
  {
  }

  lemma BoundKeepsMtrg(node: Node, s: Accounts, a: Address, token: Token, amount: int, num: nat)
    requires NodeOk(node) && AllMtrgOk(s) && amount >= 0
    ensures AllMtrgOk(Bound(node, s, a, token, amount, num))
  {
  }

  lemma UnboundKeepsMtrg(node: Node, s: Accounts, a: Address, token: Token, amount: int, num: nat)
    requires NodeOk(node) && AllMtrgOk(s) && amount >= 0
    ensures AllMtrgOk(Unbound(node, s, a, token, amount, num))
  {
  }

  lemma {:induction false} MovesKeepMtrg(node: Node, s: Accounts, moves: seq<Move>, num: nat)
    requires NodeOk(node) && AllMtrgOk(s)
    ensures AllMtrgOk(ApplyMoves(node, s, moves, num))
  {
    if moves != [] {
      MovesKeepMtrg(node, s, moves[..|moves| - 1], num);
      var d, m := ApplyMoves(node, s, moves[..|moves| - 1], num), moves[|moves| - 1];
      MinusKeepsMtrg(node, d, m.from, m.token, m.amount, num);
      PlusKeepsMtrg(node, Minus(node, d, m.from, m.token, m.amount, num), m.to, m.token, m.amount, num);
    }
  }

  lemma {:induction false} StakesKeepMtrg(node: Node, s: Accounts, stakes: seq<Stake>, num: nat)
    requires NodeOk(node) && AllMtrgOk(s)
    ensures AllMtrgOk(ApplyStakes(node, s, stakes, num))
  {
    if stakes != [] {
      StakesKeepMtrg(node, s, stakes[..|stakes| - 1], num);
      var d := ApplyStakes(node, s, stakes[..|stakes| - 1], num);
      match stakes[|stakes| - 1]
      case BoundEvent(owner, token, amount) => BoundKeepsMtrg(node, d, owner, token, amount, num);
      case UnboundEvent(owner, token, amount) => UnboundKeepsMtrg(node, d, owner, token, amount, num);
    }
  }

  lemma {:induction false} TxsKeepMtrg(node: Node, s: Accounts, txs: seq<Tx>, num: nat)
    requires NodeOk(node) && AllMtrgOk(s)
    ensures AllMtrgOk(ApplyTxs(node, s, txs, num))
  {
    if txs != [] {
      var front, tx := txs[..|txs| - 1], txs[|txs| - 1];
      TxsKeepMtrg(node, s, front, num);
      var d := ApplyTxs(node, s, front, num);
      MovesKeepMtrg(node, d, tx.moves, num);
      var moved := if tx.reverted then d else ApplyMoves(node, d, tx.moves, num);
      StakesKeepMtrg(node, moved, tx.stakes, num);
      MinusKeepsMtrg(node, ApplyStakes(node, moved, tx.stakes, num), tx.gasPayer, MTR, tx.paid, num);
    }
  }

  /** With a chain that never reports a negative MTRG balance, neither the cache nor the table ever holds
      one, free or bounded, repairs or not. */
  lemma BlockKeepsMtrg(node: Node, s: Accounts, b: Block, collector: Address)
    requires NodeOk(node) && AllMtrgOk(s)
    ensures AllMtrgOk(ApplyBlock(node, s, b, collector))
  {
    TxsKeepMtrg(node, s, b.txs, b.num);
    PlusKeepsMtrg(node, ApplyTxs(node, s, b.txs, b.num), if collector == ZERO_ADDRESS then b.beneficiary else collector,
                  MTR, ActualReward(b.txs), b.num);
  }

  lemma SaveKeepsMtrg(s: Accounts)
    requires AllMtrgOk(s)
    ensures AllMtrgOk(Saved(s))
  {
  }

  // ---------------------------------------------------------------------------
  // Any number of blocks and saves
  // ---------------------------------------------------------------------------

  /** A block with the fee beneficiary configured for it, or a save. */
  datatype Act = Import(b: Block, collector: Address) | Save

  function Perform(node: Node, s: Accounts, act: Act): Accounts {
    match act
    case Import(b, collector) => ApplyBlock(node, s, b, collector)
    case Save => Saved(s)
  }

  function PerformAll(node: Node, s: Accounts, acts: seq<Act>): Accounts {
    if acts == [] then s else Perform(node, PerformAll(node, s, acts[..|acts| - 1]), acts[|acts| - 1])
  }

  /** What a block adds to all accounts together. */
  function Gain(act: Act, token: Token): int {
    match act
    case Import(b, _) =>
      CreatedIn(b.txs, token)
      + (if token == MTR then (if ActualReward(b.txs) > 0 then ActualReward(b.txs) else 0) - Fees(b.txs) else 0)
    case Save => 0
  }

  function Gains(acts: seq<Act>, token: Token): int {
    if acts == [] then 0 else Gains(acts[..|acts| - 1], token) + Gain(acts[|acts| - 1], token)
  }

  lemma ActConserves(node: Node, s: Accounts, act: Act, token: Token)
    ensures var t := Perform(node, s, act);
            && (s.repaired ==> t.repaired)
            && (!t.repaired ==> Wealth(t, token) == Wealth(s, token) + Gain(act, token))
  {
    match act
    case Import(b, collector) =>
      BlockConserves(node, s, b, collector);
      if s.repaired {
        RepairStays(node, s, b, collector);
      }
    case Save => SaveKeepsWealth(s, token);
  }

  lemma RepairStays(node: Node, s: Accounts, b: Block, collector: Address)
    requires s.repaired
    ensures ApplyBlock(node, s, b, collector).repaired
  {
    TxsConserve(node, s, b.txs, b.num, MTR);
    PlusExact(node, ApplyTxs(node, s, b.txs, b.num), if collector == ZERO_ADDRESS then b.beneficiary else collector,
              MTR, ActualReward(b.txs), b.num, MTR);
  }

  /** Over any run without a repair, whenever it is saved, the sum of all accounts changes by the gains of its
      blocks. */
  lemma {:induction false} WealthConserved(node: Node, s: Accounts, acts: seq<Act>, token: Token)
    ensures var t := PerformAll(node, s, acts);
            && (s.repaired ==> t.repaired)
            && (!t.repaired ==> Wealth(t, token) == Wealth(s, token) + Gains(acts, token))
  {
    if acts != [] {
      var front, last := acts[..|acts| - 1], acts[|acts| - 1];
      WealthConserved(node, s, front, token);
      ActConserves(node, PerformAll(node, s, front), last, token);
    }
  }

  /** Over any run at all no account ever holds negative MTRG, in the cache or in the table. */
  lemma {:induction false} MtrgNeverNegative(node: Node, s: Accounts, acts: seq<Act>)
    requires NodeOk(node) && AllMtrgOk(s)
    ensures AllMtrgOk(PerformAll(node, s, acts))
  {
    if acts != [] {
      var before := PerformAll(node, s, acts[..|acts| - 1]);
      MtrgNeverNegative(node, s, acts[..|acts| - 1]);
      match acts[|acts| - 1]
      case Import(b, collector) => BlockKeepsMtrg(node, before, b, collector);
      case Save => SaveKeepsMtrg(before);
    }
  }

  /** Not so for MTR: bounding and unbounding do not check it. Bounding leaves a negative balance exactly
      when more is bounded than there is. */
  lemma BoundMtrNegativeIff(node: Node, s: Accounts, a: Address, amount: nat, num: nat)
    ensures Bound(node, s, a, MTR, amount, num).accts[a].bal.mtr < 0 <==> amount > Current(s, a).mtr
    ensures Unbound(node, s, a, MTR, amount, num).accts[a].bal.mtrBounded < 0 <==> amount > Current(s, a).mtrBounded
  {
  }
}
