/**
 The NFT holdings beside the token balances, over any run of events, NFT movements and saves: every holder's amount of
 every token id is that of its own movements, played one after another.
 */
module TokenNfts {
  import opened Common
  import opened TokenBalances

  /** The holdings of a row, cached or stored. */
  function Nfts(s: Balances, k: Key): map<nat, int> {
    if k in s.bals then (if k in s.nfts then s.nfts[k] else s.bals[k].nfts)
    else if k in s.db then s.db[k].nfts else map[]
  }

  /** Stored and cached holdings are positive; every cached row is stored and has its holdings beside it. */
  ghost predicate NftsReady(s: Balances) {
    && (forall k :: k in s.db ==> AllPositive(s.db[k].nfts))
    && (forall k :: k in s.bals ==> k in s.nfts && k in s.db && AllPositive(s.nfts[k]))
  }

  /** The holdings of the cached rows are those stored. */
  ghost predicate NftsSettled(s: Balances) {
    NftsReady(s) && forall k :: k in s.bals ==> s.nfts[k] == s.db[k].nfts
  }

  ghost predicate SameNfts(s: Balances, t: Balances) {
    && NftsReady(t) && (NftsSettled(s) ==> NftsSettled(t))
    && forall k: Key :: Nfts(t, k) == Nfts(s, k)
  }

  // ---------------------------------------------------------------------------
  // The importer moves no NFTs
  // ---------------------------------------------------------------------------

  lemma MergeNothing(m: map<nat, int>)
    requires AllPositive(m)
    ensures MergeNFTBalances(m, [], true) == m
  {
  }

  lemma LoadKeepsNfts(s: Balances, k: Key, num: nat)
    requires NftsReady(s)
    ensures SameNfts(s, SetDefault(s, k, num))
  {
    MergeNothing(if k in s.db then s.db[k].nfts else map[]);
  }

  lemma WriteKeepsNfts(node: Node, s: Balances, k: Key, num: nat, balance: int)
    requires NftsReady(s) && k in s.bals
    ensures SameNfts(s, Write(node, s, k, num, balance))
  {
  }

  lemma MinusKeepsNfts(node: Node, s: Balances, k: Key, amount: int, num: nat)
    requires NftsReady(s)
    ensures SameNfts(s, Minus(node, s, k, amount, num))
  {
    if k.holder != ZERO_ADDRESS && amount > 0 {
      var d := SetDefault(s, k, num);
      LoadKeepsNfts(s, k, num);
      WriteKeepsNfts(node, d, k, num, d.bals[k].balance - amount);
    }
  }

  lemma PlusKeepsNfts(node: Node, s: Balances, k: Key, amount: int, num: nat)
    requires NftsReady(s)
    ensures SameNfts(s, Plus(node, s, k, amount, num))
  {
    if k.holder != ZERO_ADDRESS && amount > 0 {
      var d := SetDefault(s, k, num);
      LoadKeepsNfts(s, k, num);
      WriteKeepsNfts(node, d, k, num, d.bals[k].balance + amount);
    }
  }

  lemma SaveKeepsNfts(s: Balances)
    requires NftsReady(s)
    ensures SameNfts(s, Saved(s))
  {
    forall k: Key
      ensures Nfts(Saved(s), k) == Nfts(s, k)
    {
      if k in s.bals {
        assert IsEmpty(ToSave(s, k)) ==> s.nfts[k] == map[];
      }
    }
  }

  lemma ApplyKeepsNfts(node: Node, s: Balances, e: Event, num: nat)
    requires NftsReady(s)
    ensures SameNfts(s, Apply(node, s, e, num))
  {
    match e
    case Transfer(token, from, to, amount) =>
      MinusKeepsNfts(node, s, Key(from, token), amount, num);
      PlusKeepsNfts(node, Minus(node, s, Key(from, token), amount, num), Key(to, token), amount, num);
    case Deposit(token, holder, amount) => PlusKeepsNfts(node, s, Key(holder, token), amount, num);
    case Withdrawal(token, holder, amount) => MinusKeepsNfts(node, s, Key(holder, token), amount, num);
    case Save => SaveKeepsNfts(s);
  }

  lemma {:induction false} ImportKeepsNfts(node: Node, s: Balances, events: seq<(Event, nat)>)
    requires NftsReady(s)
    ensures SameNfts(s, ApplyAll(node, s, events))
  {
    if events != [] {
      var front, last := events[..|events| - 1], events[|events| - 1];
      ImportKeepsNfts(node, s, front);
      ApplyKeepsNfts(node, ApplyAll(node, s, front), last.0, last.1);
    }
  }

  // ---------------------------------------------------------------------------
  // What movements make of the holdings
  // ---------------------------------------------------------------------------

  /** What a holder has of a token id. */
  function Amount(s: Balances, k: Key, id: nat): int {
    AmountIn(Nfts(s, k), id)
  }

  /** Receiving adds to what is there. Sending takes from it, but nothing where nothing is; no amount ends below
      zero. */
  function AfterMove(amount: int, delta: seq<NftBalance>, plus: bool, id: nat): int {
    if plus && amount + Total(delta, id) > 0 then amount + Total(delta, id)
    else if !plus && amount > 0 && amount - Total(delta, id) > 0 then amount - Total(delta, id)
    else 0
  }

  /** The movements of one holder, played on its amount of one token id. */
  function Played(amount: int, uses: seq<(Use, nat)>, k: Key, id: nat): int {
    if uses == [] then amount
    else
      var before, use := Played(amount, uses[..|uses| - 1], k, id), uses[|uses| - 1].0;
      if use.MoveNfts? && use.k == k && k.holder != ZERO_ADDRESS then AfterMove(before, use.delta, use.plus, id)
      else before
  }

  /** A movement into or out of a loaded row. */
  lemma MoveLoaded(held: map<nat, int>, delta: seq<NftBalance>, plus: bool, id: nat)
    requires AllPositive(held)
    ensures AllPositive(MergeNFTBalances(held, delta, plus))
    ensures AmountIn(MergeNFTBalances(held, delta, plus), id) == AfterMove(AmountIn(held, id), delta, plus, id)
  {
    if plus {
      MergePlus(held, delta, id);
    } else {
      MergeMinus(held, delta, id);
    }
  }

  /** A movement changes the holdings of its holder, by the sums of the list, and no other holding and no balance. */
  lemma MoveExact(s: Balances, k: Key, delta: seq<NftBalance>, plus: bool, num: nat, x: Key, id: nat)
    requires NftsReady(s)
    ensures var t := MoveNFT(s, k, delta, plus, num);
            && NftsReady(t)
            && (x == k && k.holder != ZERO_ADDRESS ==> Amount(t, x, id) == AfterMove(Amount(s, k, id), delta, plus, id))
            && (x != k || k.holder == ZERO_ADDRESS ==> Amount(t, x, id) == Amount(s, x, id))
            && Current(t, x) == Current(s, x) && t.repaired == s.repaired
            && (k.holder != ZERO_ADDRESS ==> k in t.bals && t.bals[k].lastUpdate == num)
  {
    if k.holder != ZERO_ADDRESS {
      var d := SetDefault(s, k, num);
      LoadKeepsNfts(s, k, num);
      assert Current(d, x) == Current(s, x);
      MoveInLoaded(d, MoveNFT(s, k, delta, plus, num), k, delta, plus, num, x, id);
    }
  }

  lemma MoveInLoaded(d: Balances, t: Balances, k: Key, delta: seq<NftBalance>, plus: bool, num: nat, x: Key, id: nat)
    requires NftsReady(d) && k in d.bals
    requires t == d.(nfts := d.nfts[k := MergeNFTBalances(d.nfts[k], delta, plus)],
                     bals := d.bals[k := d.bals[k].(lastUpdate := num)])
    ensures NftsReady(t) && Current(t, x) == Current(d, x)
    ensures Amount(t, x, id) == if x == k then AfterMove(Amount(d, k, id), delta, plus, id) else Amount(d, x, id)
  {
    MoveLoaded(d.nfts[k], delta, plus, id);
  }

  /** Over any run, saved whenever it is, each holder's amount of each token id is what its own movements make of it. */
  lemma {:induction false} HoldingsArePlayed(node: Node, s: Balances, uses: seq<(Use, nat)>, k: Key, id: nat)
    requires NftsReady(s)
    ensures NftsReady(PerformAll(node, s, uses))
    ensures Amount(PerformAll(node, s, uses), k, id) == Played(Amount(s, k, id), uses, k, id)
  {
    if uses != [] {
      var front, last := uses[..|uses| - 1], uses[|uses| - 1];
      var d := PerformAll(node, s, front);
      HoldingsArePlayed(node, s, front, k, id);
      match last.0
      case Take(e) => ApplyKeepsNfts(node, d, e, last.1);
      case MoveNfts(j, delta, plus) => MoveExact(d, j, delta, plus, last.1, k, id);
    }
  }
}
