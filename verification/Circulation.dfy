/**
 The zero address in the account totals. A burn credits it and nothing is ever taken from it, so burnt coins stay in
 the sum of all accounts. Here its share is tracked over whole runs: what it holds, what all others hold, and how far
 the two totals that calc-totalAddSub prints are apart.
 */
module Circulation {
  import opened AccountBalances
  import opened Common

  /** What the zero address holds. */
  function Sunk(s: Accounts, token: Token): int {
    Worth(Current(s, ZERO_ADDRESS), token)
  }

  /** What all other accounts hold together. */
  ghost function Circulating(s: Accounts, token: Token): int {
    Wealth(s, token) - Sunk(s, token)
  }

  // ---------------------------------------------------------------------------
  // What is burnt and paid out
  // ---------------------------------------------------------------------------

  /** What is sent to the zero address. */
  function Burnt(moves: seq<Move>, kind: Token): nat {
    if moves == [] then 0
    else
      var m := moves[|moves| - 1];
      Burnt(moves[..|moves| - 1], kind)
      + if m.to == ZERO_ADDRESS && m.token == kind && m.amount > 0 then m.amount else 0
  }

  function BurntIn(txs: seq<Tx>, kind: Token): nat {
    if txs == [] then 0
    else
      var tx := txs[|txs| - 1];
      BurntIn(txs[..|txs| - 1], kind) + if tx.reverted then 0 else Burnt(tx.moves, kind)
  }

  /** The reward that a block pays to the zero address, or to somebody else. */
  function Paid(b: Block, collector: Address, toZero: bool): nat {
    var payee := if collector == ZERO_ADDRESS then b.beneficiary else collector;
    if ActualReward(b.txs) > 0 && (payee == ZERO_ADDRESS) == toZero then ActualReward(b.txs) else 0
  }

  /** What the zero address has sent, over a run: the mints of the script. */
  function Mints(acts: seq<Act>, token: Token): int {
    if acts == [] then 0
    else
      Mints(acts[..|acts| - 1], token)
      + match acts[|acts| - 1] case Import(b, _) => CreatedIn(b.txs, token) case Save => 0
  }

  /** What the zero address has received, over a run: the burns of the script. */
  function Burns(acts: seq<Act>, token: Token): nat {
    if acts == [] then 0
    else
      Burns(acts[..|acts| - 1], token)
      + match acts[|acts| - 1] case Import(b, _) => BurntIn(b.txs, token) case Save => 0
  }

  /** The rewards that reach the zero address, or somebody else, over a run. */
  function Rewards(acts: seq<Act>, toZero: bool): nat {
    if acts == [] then 0
    else
      Rewards(acts[..|acts| - 1], toZero)
      + match acts[|acts| - 1] case Import(b, collector) => Paid(b, collector, toZero) case Save => 0
  }

  function Charges(acts: seq<Act>): int {
    if acts == [] then 0
    else Charges(acts[..|acts| - 1]) + match acts[|acts| - 1] case Import(b, _) => Fees(b.txs) case Save => 0
  }

  /** For MTR, what a run pays out in rewards beside what moves on the chain; nothing for MTRG. */
  function IfMtr(token: Token, amount: int): int {
    if token == MTR then amount else 0
  }

  // ---------------------------------------------------------------------------
  // One operation
  // ---------------------------------------------------------------------------

  lemma MinusLeavesZero(node: Node, s: Accounts, a: Address, token: Token, amount: int, num: nat)
    ensures Current(Minus(node, s, a, token, amount, num), ZERO_ADDRESS) == Current(s, ZERO_ADDRESS)
  {
  }

  lemma PlusSinks(node: Node, s: Accounts, a: Address, token: Token, amount: int, num: nat, kind: Token)
    ensures var t := Plus(node, s, a, token, amount, num);
            !t.repaired ==>
              !s.repaired
              && Sunk(t, kind) == Sunk(s, kind) + if a == ZERO_ADDRESS && kind == token && amount > 0 then amount else 0
  {
  }

  lemma StakeKeepsSunk(node: Node, s: Accounts, a: Address, token: Token, amount: int, num: nat, kind: Token)
    ensures var t := Bound(node, s, a, token, amount, num);
            !t.repaired ==> !s.repaired && Sunk(t, kind) == Sunk(s, kind)
    ensures var t := Unbound(node, s, a, token, amount, num);
            !t.repaired ==> !s.repaired && Sunk(t, kind) == Sunk(s, kind)
  {
  }

  // ---------------------------------------------------------------------------
  // A block
  // ---------------------------------------------------------------------------

  lemma {:induction false} MovesSink(node: Node, s: Accounts, moves: seq<Move>, num: nat, kind: Token)
    ensures var t := ApplyMoves(node, s, moves, num);
            !t.repaired ==> Sunk(t, kind) == Sunk(s, kind) + Burnt(moves, kind)
  {
    if moves != [] {
      var front, m := moves[..|moves| - 1], moves[|moves| - 1];
      MovesSink(node, s, front, num, kind);
      var d := ApplyMoves(node, s, front, num);
      var debited := Minus(node, d, m.from, m.token, m.amount, num);
      MinusExact(node, d, m.from, m.token, m.amount, num, kind);
      MinusLeavesZero(node, d, m.from, m.token, m.amount, num);
      PlusSinks(node, debited, m.to, m.token, m.amount, num, kind);
    }
  }

  lemma {:induction false} StakesKeepSunk(node: Node, s: Accounts, stakes: seq<Stake>, num: nat, kind: Token)
    ensures var t := ApplyStakes(node, s, stakes, num);
            !t.repaired ==> !s.repaired && Sunk(t, kind) == Sunk(s, kind)
  {
    if stakes != [] {
      var front := stakes[..|stakes| - 1];
      StakesKeepSunk(node, s, front, num, kind);
      var d := ApplyStakes(node, s, front, num);
      match stakes[|stakes| - 1]
      case BoundEvent(owner, token, amount) => StakeKeepsSunk(node, d, owner, token, amount, num, kind);
      case UnboundEvent(owner, token, amount) => StakeKeepsSunk(node, d, owner, token, amount, num, kind);
    }
  }

  lemma {:induction false} TxsSink(node: Node, s: Accounts, txs: seq<Tx>, num: nat, kind: Token)
    ensures var t := ApplyTxs(node, s, txs, num);
            !t.repaired ==> Sunk(t, kind) == Sunk(s, kind) + BurntIn(txs, kind)
  {
    if txs != [] {
      var front, tx := txs[..|txs| - 1], txs[|txs| - 1];
      TxsSink(node, s, front, num, kind);
      var d := ApplyTxs(node, s, front, num);
      var moved := if tx.reverted then d else ApplyMoves(node, d, tx.moves, num);
      var staked := ApplyStakes(node, moved, tx.stakes, num);
      MovesSink(node, d, tx.moves, num, kind);
      MovesConserve(node, d, tx.moves, num, kind);
      StakesKeepSunk(node, moved, tx.stakes, num, kind);
      MinusExact(node, staked, tx.gasPayer, MTR, tx.paid, num, kind);
      MinusLeavesZero(node, staked, tx.gasPayer, MTR, tx.paid, num);
    }
  }

  lemma BlockSinks(node: Node, s: Accounts, b: Block, collector: Address, kind: Token)
    ensures var t := ApplyBlock(node, s, b, collector);
            !t.repaired ==>
              Sunk(t, kind) == Sunk(s, kind) + BurntIn(b.txs, kind) + IfMtr(kind, Paid(b, collector, true))
  {
    TxsSink(node, s, b.txs, b.num, kind);
    PlusSinks(node, ApplyTxs(node, s, b.txs, b.num), if collector == ZERO_ADDRESS then b.beneficiary else collector,
              MTR, ActualReward(b.txs), b.num, kind);
  }

  // ---------------------------------------------------------------------------
  // Whole runs
  // ---------------------------------------------------------------------------

  /** Over any run without a repair the zero address gains exactly what is burnt and the rewards paid to it. */
  lemma {:induction false} ZeroKeepsBurns(node: Node, s: Accounts, acts: seq<Act>, token: Token)
    ensures var t := PerformAll(node, s, acts);
            !t.repaired ==> Sunk(t, token) == Sunk(s, token) + Burns(acts, token) + IfMtr(token, Rewards(acts, true))
  {
    if acts != [] {
      var front, last := acts[..|acts| - 1], acts[|acts| - 1];
      var before := PerformAll(node, s, front);
      ZeroKeepsBurns(node, s, front, token);
      ActConserves(node, before, last, token);
      match last
      case Import(b, collector) => BlockSinks(node, before, b, collector, token);
      case Save =>
    }
  }

  lemma {:induction false} GainsSplit(acts: seq<Act>, token: Token)
    ensures Gains(acts, token)
         == Mints(acts, token) + IfMtr(token, Rewards(acts, true) + Rewards(acts, false) - Charges(acts))
  {
    if acts != [] {
      GainsSplit(acts[..|acts| - 1], token);
    }
  }

  /** What all accounts and what the zero address gain give what the others gain. */
  lemma CirculationOf(s: Accounts, t: Accounts, acts: seq<Act>, token: Token)
    requires Wealth(t, token) == Wealth(s, token) + Gains(acts, token)
    requires Sunk(t, token) == Sunk(s, token) + Burns(acts, token) + IfMtr(token, Rewards(acts, true))
    ensures Circulating(t, token) == Circulating(s, token) + Mints(acts, token) - Burns(acts, token)
                                     + IfMtr(token, Rewards(acts, false) - Charges(acts))
  {
    GainsSplit(acts, token);
  }

  /** The law with burns: outside the zero address the coins change by mints minus burns, and for MTR by the rewards
      paid to anybody else minus the fees charged. */
  lemma CirculationConserved(node: Node, s: Accounts, acts: seq<Act>, token: Token)
    ensures var t := PerformAll(node, s, acts);
            !t.repaired ==>
              Circulating(t, token) == Circulating(s, token) + Mints(acts, token) - Burns(acts, token)
                                       + IfMtr(token, Rewards(acts, false) - Charges(acts))
  {
    WealthConserved(node, s, acts, token);
    ZeroKeepsBurns(node, s, acts, token);
    if !PerformAll(node, s, acts).repaired {
      CirculationOf(s, PerformAll(node, s, acts), acts, token);
    }
  }

  /** The calculated total of the script is the initial one plus mints minus burns, the other one is the sum of all
      account rows. The second is larger by what was burnt and, for MTR, by rewards minus fees; so the MTRG totals
      agree exactly if nothing was burnt. */
  lemma TotalsApart(node: Node, s: Accounts, acts: seq<Act>, token: Token)
    ensures var t := PerformAll(node, s, acts);
            var calculated := Wealth(s, token) + Mints(acts, token) - Burns(acts, token);
            !t.repaired ==>
              Wealth(t, token) - calculated
              == Burns(acts, token) + IfMtr(token, Rewards(acts, true) + Rewards(acts, false) - Charges(acts))
    ensures var t := PerformAll(node, s, acts);
            var calculated := Wealth(s, MTRG) + Mints(acts, MTRG) - Burns(acts, MTRG);
            !t.repaired ==> (Wealth(t, MTRG) == calculated <==> Burns(acts, MTRG) == 0)
  {
    WealthConserved(node, s, acts, token);
    WealthConserved(node, s, acts, MTRG);
    GainsSplit(acts, token);
    GainsSplit(acts, MTRG);
  }
}
