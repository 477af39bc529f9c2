/**
 What a block does to each account on its own. The transfers, staking events, fees and the reward of a block are a list
 of changes for every address, in the order they happen; a change that leaves the balance it checks negative is
 replaced by the chain's balances. Block processing plays for every address exactly its own list.
 */
module AccountReplay {
  import opened AccountBalances
  import opened Common

  /** The balance that must not be negative after the change. */
  datatype Check = OnMtr | OnMtrg | OnBoundedMtrg | Unchecked

  datatype Change = Change(mtr: int, mtrg: int, mtrBounded: int, mtrgBounded: int, check: Check)

  function Changed(b: Balance, c: Change): Balance {
    Balance(b.mtr + c.mtr, b.mtrg + c.mtrg, b.mtrBounded + c.mtrBounded, b.mtrgBounded + c.mtrgBounded)
  }

  predicate Passes(b: Balance, check: Check) {
    match check
    case OnMtr => b.mtr >= 0
    case OnMtrg => b.mtrg >= 0
    case OnBoundedMtrg => b.mtrgBounded >= 0
    case Unchecked => true
  }

  // ---------------------------------------------------------------------------
  // What a block says for one address
  // ---------------------------------------------------------------------------

  /** Coins that come, or with a negative amount go. */
  function Coins(token: Token, amount: int): Change {
    match token
    case MTR => Change(amount, 0, 0, 0, OnMtr)
    case MTRG => Change(0, amount, 0, 0, OnMtrg)
  }

  /** The sender loses the amount, unless it is the zero address, and then the recipient gets it. */
  function OfMove(m: Move, a: Address): seq<Change> {
    if m.amount <= 0 then []
    else
      (if a == m.from && a != ZERO_ADDRESS then [Coins(m.token, -m.amount)] else [])
      + (if a == m.to then [Coins(m.token, m.amount)] else [])
  }

  /** Coins that become bound, or with a negative amount free again. Nothing checks MTR; of MTRG the side that loses
      is checked. */
  function Binds(token: Token, amount: int, check: Check): Change {
    match token
    case MTR => Change(-amount, 0, amount, 0, Unchecked)
    case MTRG => Change(0, -amount, 0, amount, check)
  }

  function StakeChange(e: Stake): Change {
    match e
    case BoundEvent(_, token, amount) => Binds(token, amount, OnMtrg)
    case UnboundEvent(_, token, amount) => Binds(token, 0 - amount, OnBoundedMtrg)
  }

  function OfStake(e: Stake, a: Address): seq<Change> {
    if a == e.owner then [StakeChange(e)] else []
  }

  function OfMoves(moves: seq<Move>, a: Address): seq<Change> {
    if moves == [] then [] else OfMoves(moves[..|moves| - 1], a) + OfMove(moves[|moves| - 1], a)
  }

  function OfStakes(stakes: seq<Stake>, a: Address): seq<Change> {
    if stakes == [] then [] else OfStakes(stakes[..|stakes| - 1], a) + OfStake(stakes[|stakes| - 1], a)
  }

  function OfFee(tx: Tx, a: Address): seq<Change> {
    if a == tx.gasPayer && a != ZERO_ADDRESS && tx.paid > 0 then [Coins(MTR, -tx.paid)] else []
  }

  /** A reverted transaction moves nothing, and is charged for. */
  function OfTx(tx: Tx, a: Address): seq<Change> {
    (if tx.reverted then [] else OfMoves(tx.moves, a)) + OfStakes(tx.stakes, a) + OfFee(tx, a)
  }

  function OfTxs(txs: seq<Tx>, a: Address): seq<Change> {
    if txs == [] then [] else OfTxs(txs[..|txs| - 1], a) + OfTx(txs[|txs| - 1], a)
  }

  /** What the transactions with an origin pay for the block. */
  function Reward(txs: seq<Tx>): int {
    if txs == [] then 0
    else
      var tx := txs[|txs| - 1];
      Reward(txs[..|txs| - 1]) + if tx.origin == ZERO_ADDRESS then 0 else tx.reward
  }

  /** The configured collector gets the reward, or without one the block's beneficiary. */
  function OfReward(b: Block, collector: Address, a: Address): seq<Change> {
    var reward := Reward(b.txs);
    if reward <= 0 then []
    else if collector != ZERO_ADDRESS && a == collector then [Coins(MTR, reward)]
    else if collector == ZERO_ADDRESS && a == b.beneficiary then [Coins(MTR, reward)]
    else []
  }

  /** All changes of the address, in order. */
  function OfBlock(b: Block, collector: Address, a: Address): seq<Change> {
    OfTxs(b.txs, a) + OfReward(b, collector, a)
  }

  // ---------------------------------------------------------------------------
  // Playing a list of changes
  // ---------------------------------------------------------------------------

  function Replay(node: Node, a: Address, num: nat, start: Balance, changes: seq<Change>): Balance {
    if changes == [] then start
    else
      var c := changes[|changes| - 1];
      var next := Changed(Replay(node, a, num, start, changes[..|changes| - 1]), c);
      if Passes(next, c.check) then next else node(a, num)
  }

  /** No change of the list needs a repair. */
  predicate Steady(node: Node, a: Address, num: nat, start: Balance, changes: seq<Change>) {
    changes != [] ==>
      var front, c := changes[..|changes| - 1], changes[|changes| - 1];
      Steady(node, a, num, start, front) && Passes(Changed(Replay(node, a, num, start, front), c), c.check)
  }

  lemma {:induction false} ReplayAppend(
      node: Node, a: Address, num: nat, start: Balance, c: seq<Change>, d: seq<Change>)
    ensures Replay(node, a, num, start, c + d) == Replay(node, a, num, Replay(node, a, num, start, c), d)
    ensures Steady(node, a, num, start, c + d)
       <==> Steady(node, a, num, start, c) && Steady(node, a, num, Replay(node, a, num, start, c), d)
  {
    if d == [] {
      assert c + d == c;
    } else {
      assert (c + d)[..|c + d| - 1] == c + d[..|d| - 1];
      ReplayAppend(node, a, num, start, c, d[..|d| - 1]);
    }
  }

  lemma ReplayOne(node: Node, a: Address, num: nat, start: Balance, c: Change)
    ensures Replay(node, a, num, start, [c])
         == if Passes(Changed(start, c), c.check) then Changed(start, c) else node(a, num)
    ensures Steady(node, a, num, start, [c]) <==> Passes(Changed(start, c), c.check)
  {
    assert [c][..0] == [];
  }

  // ---------------------------------------------------------------------------
  // Processing plays every address on its own
  // ---------------------------------------------------------------------------

  /** The cached account is dated by the block if it has a change, and else untouched. */
  predicate Dated(s: Accounts, t: Accounts, a: Address, num: nat, changes: seq<Change>) {
    if changes == [] then (a in t.accts <==> a in s.accts) && (a in t.accts ==> t.accts[a] == s.accts[a])
    else a in t.accts && t.accts[a].lastUpdate == num
  }

  /** From `s` to `t` every address has played its changes, and a repair was made exactly if one of them needed it. */
  ghost predicate Played(node: Node, num: nat, s: Accounts, t: Accounts, changes: Address -> seq<Change>) {
    && (forall a: Address :: Current(t, a) == Replay(node, a, num, Current(s, a), changes(a)))
    && (forall a: Address :: Dated(s, t, a, num, changes(a)))
    && (t.repaired <==> s.repaired || exists a: Address :: !Steady(node, a, num, Current(s, a), changes(a)))
  }

  lemma PlayedNothing(node: Node, num: nat, s: Accounts, f: Address -> seq<Change>)
    requires forall a: Address :: f(a) == []
    ensures Played(node, num, s, s, f)
  {
  }

  lemma PlayedBoth(node: Node, num: nat, s: Accounts, t: Accounts, u: Accounts,
                   f: Address -> seq<Change>, g: Address -> seq<Change>, h: Address -> seq<Change>)
    requires Played(node, num, s, t, f) && Played(node, num, t, u, g)
    requires forall a: Address :: h(a) == f(a) + g(a)
    ensures Played(node, num, s, u, h)
  {
    forall a: Address
      ensures Current(u, a) == Replay(node, a, num, Current(s, a), h(a))
      ensures Steady(node, a, num, Current(s, a), h(a))
         <==> Steady(node, a, num, Current(s, a), f(a)) && Steady(node, a, num, Current(t, a), g(a))
      ensures Dated(s, u, a, num, h(a))
    {
      assert Dated(s, t, a, num, f(a)) && Dated(t, u, a, num, g(a));
      ReplayAppend(node, a, num, Current(s, a), f(a), g(a));
    }
  }

  /** Only `a` changes, by `c`, with the repair that its check asks for. */
  ghost predicate OneChanges(node: Node, num: nat, s: Accounts, t: Accounts, a: Address, c: Change) {
    var next := Changed(Current(s, a), c);
    && Current(t, a) == (if Passes(next, c.check) then next else node(a, num))
    && (t.repaired <==> s.repaired || !Passes(next, c.check))
    && a in t.accts && t.accts[a].lastUpdate == num
    && forall x: Address :: x != a ==> Current(t, x) == Current(s, x) && Dated(s, t, x, num, [])
  }

  lemma PlayedOne(node: Node, num: nat, s: Accounts, t: Accounts, a: Address, c: Change, f: Address -> seq<Change>)
    requires OneChanges(node, num, s, t, a, c)
    requires forall x: Address :: f(x) == if x == a then [c] else []
    ensures Played(node, num, s, t, f)
  {
    ReplayOne(node, a, num, Current(s, a), c);
    assert !Steady(node, a, num, Current(s, a), f(a)) <==> !Passes(Changed(Current(s, a), c), c.check);
  }

  lemma MinusPlays(node: Node, s: Accounts, a: Address, token: Token, amount: int, num: nat, f: Address -> seq<Change>)
    requires forall x: Address ::
               f(x) == if x == a && a != ZERO_ADDRESS && amount > 0 then [Coins(token, -amount)] else []
    ensures Played(node, num, s, Minus(node, s, a, token, amount, num), f)
  {
    if a == ZERO_ADDRESS || amount <= 0 {
      PlayedNothing(node, num, s, f);
    } else {
      PlayedOne(node, num, s, Minus(node, s, a, token, amount, num), a, Coins(token, -amount), f);
    }
  }

  lemma PlusPlays(node: Node, s: Accounts, a: Address, token: Token, amount: int, num: nat, f: Address -> seq<Change>)
    requires forall x: Address :: f(x) == if x == a && amount > 0 then [Coins(token, amount)] else []
    ensures Played(node, num, s, Plus(node, s, a, token, amount, num), f)
  {
    if amount <= 0 {
      PlayedNothing(node, num, s, f);
    } else {
      PlayedOne(node, num, s, Plus(node, s, a, token, amount, num), a, Coins(token, amount), f);
    }
  }

  /** Loading an account and writing its changed balances, with the repair that the check asks for. */
  lemma WriteChanges(node: Node, s: Accounts, a: Address, num: nat, c: Change)
    ensures var next := Changed(Current(s, a), c);
            OneChanges(node, num, s, Write(node, SetDefault(s, a, num), a, num, next, !Passes(next, c.check)), a, c)
  {
  }

  /** What binding does to a loaded balance. */
  lemma BindsChanges(b: Balance, amount: int, check: Check)
    ensures Changed(b, Binds(MTR, amount, check)) == b.(mtr := b.mtr - amount, mtrBounded := b.mtrBounded + amount)
    ensures Changed(b, Binds(MTRG, amount, check)) == b.(mtrg := b.mtrg - amount, mtrgBounded := b.mtrgBounded + amount)
  {
  }

  lemma LoadsCurrent(s: Accounts, a: Address, num: nat)
    ensures SetDefault(s, a, num).accts[a].bal == Current(s, a)
  {
  }

  lemma BoundIs(node: Node, s: Accounts, a: Address, token: Token, amount: nat, num: nat)
    ensures OneChanges(node, num, s, Bound(node, s, a, token, amount, num), a, Binds(token, amount, OnMtrg))
  {
    var c := Binds(token, amount, OnMtrg);
    var next := Changed(Current(s, a), c);
    LoadsCurrent(s, a, num);
    BindsChanges(Current(s, a), amount, OnMtrg);
    assert Bound(node, s, a, token, amount, num)
        == Write(node, SetDefault(s, a, num), a, num, next, !Passes(next, c.check));
    WriteChanges(node, s, a, num, c);
  }

  lemma UnboundIs(node: Node, s: Accounts, a: Address, token: Token, amount: nat, num: nat)
    ensures OneChanges(node, num, s, Unbound(node, s, a, token, amount, num), a,
                       Binds(token, 0 - amount, OnBoundedMtrg))
  {
    var c := Binds(token, 0 - amount, OnBoundedMtrg);
    var next := Changed(Current(s, a), c);
    LoadsCurrent(s, a, num);
    BindsChanges(Current(s, a), 0 - amount, OnBoundedMtrg);
    assert Unbound(node, s, a, token, amount, num)
        == Write(node, SetDefault(s, a, num), a, num, next, !Passes(next, c.check));
    WriteChanges(node, s, a, num, c);
  }

  lemma StakeIsPlayed(node: Node, s: Accounts, t: Accounts, e: Stake, num: nat)
    requires OneChanges(node, num, s, t, e.owner, StakeChange(e))
    ensures Played(node, num, s, t, (a: Address) => OfStake(e, a))
  {
    PlayedOne(node, num, s, t, e.owner, StakeChange(e), (a: Address) => OfStake(e, a));
  }

  lemma StakePlays(node: Node, s: Accounts, t: Accounts, e: Stake, num: nat)
    requires e.BoundEvent? ==> t == Bound(node, s, e.owner, e.token, e.amount, num)
    requires e.UnboundEvent? ==> t == Unbound(node, s, e.owner, e.token, e.amount, num)
    ensures Played(node, num, s, t, (a: Address) => OfStake(e, a))
  {
    match e {
      case BoundEvent(a, token, amount) => BoundIs(node, s, a, token, amount, num);
      case UnboundEvent(a, token, amount) => UnboundIs(node, s, a, token, amount, num);
    }
    StakeIsPlayed(node, s, t, e, num);
  }

  lemma MovePlays(node: Node, s: Accounts, m: Move, num: nat)
    ensures Played(node, num, s,
                   Plus(node, Minus(node, s, m.from, m.token, m.amount, num), m.to, m.token, m.amount, num),
                   (a: Address) => OfMove(m, a))
  {
    var taken := Minus(node, s, m.from, m.token, m.amount, num);
    var sent := (a: Address) =>
      if a == m.from && m.from != ZERO_ADDRESS && m.amount > 0 then [Coins(m.token, -m.amount)] else [];
    var received := (a: Address) => if a == m.to && m.amount > 0 then [Coins(m.token, m.amount)] else [];
    MinusPlays(node, s, m.from, m.token, m.amount, num, sent);
    PlusPlays(node, taken, m.to, m.token, m.amount, num, received);
    PlayedBoth(node, num, s, taken, Plus(node, taken, m.to, m.token, m.amount, num), sent, received,
               (a: Address) => OfMove(m, a));
  }

  lemma {:induction false} MovesPlay(node: Node, s: Accounts, moves: seq<Move>, num: nat)
    ensures Played(node, num, s, ApplyMoves(node, s, moves, num), (a: Address) => OfMoves(moves, a))
  {
    if moves == [] {
      PlayedNothing(node, num, s, (a: Address) => OfMoves(moves, a));
    } else {
      var front, m := moves[..|moves| - 1], moves[|moves| - 1];
      var d := ApplyMoves(node, s, front, num);
      MovesPlay(node, s, front, num);
      MovePlays(node, d, m, num);
      PlayedBoth(node, num, s, d, ApplyMoves(node, s, moves, num), (a: Address) => OfMoves(front, a),
                 (a: Address) => OfMove(m, a), (a: Address) => OfMoves(moves, a));
    }
  }

  lemma {:induction false} StakesPlay(node: Node, s: Accounts, stakes: seq<Stake>, num: nat)
    ensures Played(node, num, s, ApplyStakes(node, s, stakes, num), (a: Address) => OfStakes(stakes, a))
  {
    if stakes == [] {
      PlayedNothing(node, num, s, (a: Address) => OfStakes(stakes, a));
    } else {
      var front, e := stakes[..|stakes| - 1], stakes[|stakes| - 1];
      var d := ApplyStakes(node, s, front, num);
      StakesPlay(node, s, front, num);
      StakePlays(node, d, ApplyStakes(node, s, stakes, num), e, num);
      PlayedBoth(node, num, s, d, ApplyStakes(node, s, stakes, num),
                 (a: Address) => OfStakes(front, a), (a: Address) => OfStake(e, a),
                 (a: Address) => OfStakes(stakes, a));
    }
  }

  /** The changes of a transaction before its fee. */
  function BeforeFee(tx: Tx, a: Address): seq<Change> {
    (if tx.reverted then [] else OfMoves(tx.moves, a)) + OfStakes(tx.stakes, a)
  }

  lemma TxPlaysBeforeFee(node: Node, s: Accounts, tx: Tx, num: nat)
    ensures var moved := if tx.reverted then s else ApplyMoves(node, s, tx.moves, num);
            Played(node, num, s, ApplyStakes(node, moved, tx.stakes, num), (a: Address) => BeforeFee(tx, a))
  {
    var moved := if tx.reverted then s else ApplyMoves(node, s, tx.moves, num);
    var moves := (a: Address) => if tx.reverted then [] else OfMoves(tx.moves, a);
    if tx.reverted {
      PlayedNothing(node, num, s, moves);
    } else {
      MovesPlay(node, s, tx.moves, num);
      assert Played(node, num, s, moved, moves);
    }
    StakesPlay(node, moved, tx.stakes, num);
    PlayedBoth(node, num, s, moved, ApplyStakes(node, moved, tx.stakes, num), moves,
               (a: Address) => OfStakes(tx.stakes, a), (a: Address) => BeforeFee(tx, a));
  }

  lemma TxPlays(node: Node, s: Accounts, tx: Tx, num: nat)
    ensures Played(node, num, s, ApplyTx(node, s, tx, num), (a: Address) => OfTx(tx, a))
  {
    var moved := if tx.reverted then s else ApplyMoves(node, s, tx.moves, num);
    var staked := ApplyStakes(node, moved, tx.stakes, num);
    TxPlaysBeforeFee(node, s, tx, num);
    MinusPlays(node, staked, tx.gasPayer, MTR, tx.paid, num, (a: Address) => OfFee(tx, a));
    PlayedBoth(node, num, s, staked, ApplyTx(node, s, tx, num), (a: Address) => BeforeFee(tx, a),
               (a: Address) => OfFee(tx, a), (a: Address) => OfTx(tx, a));
  }

  lemma {:induction false} TxsPlay(node: Node, s: Accounts, txs: seq<Tx>, num: nat)
    ensures Played(node, num, s, ApplyTxs(node, s, txs, num), (a: Address) => OfTxs(txs, a))
  {
    if txs == [] {
      PlayedNothing(node, num, s, (a: Address) => OfTxs(txs, a));
    } else {
      var front, tx := txs[..|txs| - 1], txs[|txs| - 1];
      TxsPlay(node, s, front, num);
      TxPlays(node, ApplyTxs(node, s, front, num), tx, num);
      PlayedBoth(node, num, s, ApplyTxs(node, s, front, num), ApplyTxs(node, s, txs, num),
                 (a: Address) => OfTxs(front, a), (a: Address) => OfTx(tx, a), (a: Address) => OfTxs(txs, a));
    }
  }

  lemma {:induction false} RewardIsActual(txs: seq<Tx>)
    ensures ActualReward(txs) == Reward(txs)
  {
    if txs != [] {
      RewardIsActual(txs[..|txs| - 1]);
    }
  }

  /** The main result: a block plays for every address its own changes, and makes a repair exactly if some address has
      a change that fails its check. */
  lemma BlockIsReplay(node: Node, s: Accounts, b: Block, collector: Address)
    ensures var t := ApplyBlock(node, s, b, collector);
            && (forall a: Address ::
                  Current(t, a) == Replay(node, a, b.num, Current(s, a), OfBlock(b, collector, a)))
            && (forall a: Address :: Dated(s, t, a, b.num, OfBlock(b, collector, a)))
            && (t.repaired <==>
                  s.repaired
                  || exists a: Address :: !Steady(node, a, b.num, Current(s, a), OfBlock(b, collector, a)))
  {
    var d, t := ApplyTxs(node, s, b.txs, b.num), ApplyBlock(node, s, b, collector);
    var payee := if collector == ZERO_ADDRESS then b.beneficiary else collector;
    TxsPlay(node, s, b.txs, b.num);
    RewardIsActual(b.txs);
    PlusPlays(node, d, payee, MTR, Reward(b.txs), b.num, (a: Address) => OfReward(b, collector, a));
    PlayedBoth(node, b.num, s, d, t, (a: Address) => OfTxs(b.txs, a), (a: Address) => OfReward(b, collector, a),
               (a: Address) => OfBlock(b, collector, a));
  }

  // ---------------------------------------------------------------------------
  // Without a repair, and with covered balances
  // ---------------------------------------------------------------------------

  function Sum(changes: seq<Change>): Balance {
    if changes == [] then ZERO_BALANCE else Changed(Sum(changes[..|changes| - 1]), changes[|changes| - 1])
  }

  function Plus4(b: Balance, d: Balance): Balance {
    Balance(b.mtr + d.mtr, b.mtrg + d.mtrg, b.mtrBounded + d.mtrBounded, b.mtrgBounded + d.mtrgBounded)
  }

  lemma {:induction false} SteadyAdds(node: Node, a: Address, num: nat, start: Balance, changes: seq<Change>)
    requires Steady(node, a, num, start, changes)
    ensures Replay(node, a, num, start, changes) == Plus4(start, Sum(changes))
  {
    if changes != [] {
      SteadyAdds(node, a, num, start, changes[..|changes| - 1]);
    }
  }

  /** Without a repair the four balances of the address have changed by `d`. */
  predicate Lawful(s: Accounts, t: Accounts, a: Address, d: Balance) {
    var b, after := Current(s, a), Current(t, a);
    !t.repaired ==>
      && !s.repaired && after.mtr == b.mtr + d.mtr && after.mtrg == b.mtrg + d.mtrg
      && after.mtrBounded == b.mtrBounded + d.mtrBounded && after.mtrgBounded == b.mtrgBounded + d.mtrgBounded
  }

  lemma ReplayIsLawful(node: Node, s: Accounts, t: Accounts, a: Address, num: nat, changes: seq<Change>)
    requires Current(t, a) == Replay(node, a, num, Current(s, a), changes)
    requires !t.repaired ==> !s.repaired && Steady(node, a, num, Current(s, a), changes)
    ensures Lawful(s, t, a, Sum(changes))
  {
    if !t.repaired {
      SteadyAdds(node, a, num, Current(s, a), changes);
    }
  }

  /** The account law: over a block without a repair each of the four balances of every address changes by the sum of
      the address's changes. */
  lemma BlockLaw(node: Node, s: Accounts, b: Block, collector: Address, a: Address)
    ensures Lawful(s, ApplyBlock(node, s, b, collector), a, Sum(OfBlock(b, collector, a)))
  {
    BlockIsReplay(node, s, b, collector);
    ReplayIsLawful(node, s, ApplyBlock(node, s, b, collector), a, b.num, OfBlock(b, collector, a));
  }

  function SumOfAct(act: Act, a: Address): Balance {
    match act
    case Import(b, collector) => Sum(OfBlock(b, collector, a))
    case Save => ZERO_BALANCE
  }

  function SumOfActs(acts: seq<Act>, a: Address): Balance {
    if acts == [] then ZERO_BALANCE else Plus4(SumOfActs(acts[..|acts| - 1], a), SumOfAct(acts[|acts| - 1], a))
  }

  lemma NothingLaw(s: Accounts, t: Accounts, a: Address)
    requires t.repaired == s.repaired && Current(t, a) == Current(s, a)
    ensures Lawful(s, t, a, ZERO_BALANCE)
  {
  }

  lemma ActLaw(node: Node, s: Accounts, act: Act, a: Address)
    ensures Lawful(s, Perform(node, s, act), a, SumOfAct(act, a))
  {
    match act
    case Import(b, collector) => BlockLaw(node, s, b, collector, a);
    case Save => NothingLaw(s, Saved(s), a);
  }

  lemma LawsAdd(s: Accounts, t: Accounts, u: Accounts, a: Address, d: Balance, e: Balance)
    requires Lawful(s, t, a, d) && Lawful(t, u, a, e)
    ensures Lawful(s, u, a, Plus4(d, e))
  {
  }

  /** The same over any number of blocks and saves. */
  lemma {:induction false} RunLaw(node: Node, s: Accounts, acts: seq<Act>, a: Address)
    ensures Lawful(s, PerformAll(node, s, acts), a, SumOfActs(acts, a))
  {
    if acts == [] {
      NothingLaw(s, s, a);
    } else {
      var front, last := acts[..|acts| - 1], acts[|acts| - 1];
      var before := PerformAll(node, s, front);
      RunLaw(node, s, front, a);
      ActLaw(node, before, last, a);
      LawsAdd(s, before, PerformAll(node, s, acts), a, SumOfActs(front, a), SumOfAct(last, a));
    }
  }
}
