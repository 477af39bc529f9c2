/**
 The token balance cache on values: ERC20 balances and NFT holdings per holder and token, repaired from
 the chain when a balance turns negative. `TokenBalanceCache` is the cache itself.
 */
module TokenBalances {
  import opened Common
  import opened Sums

  /** The cache key is the pair of addresses. */
  datatype Key = Key(holder: Address, token: Address)

  /** A row of the table; `nfts` maps token ids to amounts. */
  datatype Bal = Bal(balance: int, nfts: map<nat, int>, lastUpdate: nat)

  /** balanceOf on the chain right after a block. */
  type Node = (Key, nat) -> int

  /** `nfts` is kept beside the cached rows and is not emptied by clean. */
  datatype Balances = Balances(bals: map<Key, Bal>, nfts: map<Key, map<nat, int>>, db: map<Key, Bal>, repaired: bool)

  // ---------------------------------------------------------------------------
  // NFT holdings
  // ---------------------------------------------------------------------------

  datatype NftBalance = NftBalance(tokenId: nat, value: int)

  function AmountIn(m: map<nat, int>, id: nat): int {
    if id in m then m[id] else 0
  }

  /** The second loop of mergeNFTBalances: subtracting an unknown token is ignored. */
  function MergeDelta(m: map<nat, int>, delta: seq<NftBalance>, plus: bool): map<nat, int> {
    if delta == [] then m
    else
      var r, d := MergeDelta(m, delta[..|delta| - 1], plus), delta[|delta| - 1];
      if d.tokenId in r then r[d.tokenId := if plus then r[d.tokenId] + d.value else r[d.tokenId] - d.value]
      else if plus then r[d.tokenId := d.value]
      else r
  }

  function Positive(m: map<nat, int>): map<nat, int> {
    map id | id in m && m[id] > 0 :: m[id]
  }

  function MergeNFTBalances(origin: map<nat, int>, delta: seq<NftBalance>, plus: bool): map<nat, int> {
    Positive(MergeDelta(origin, delta, plus))
  }

  /** How much of a token a list of changes holds. */
  function Total(delta: seq<NftBalance>, id: nat): int {
    if delta == [] then 0
    else Total(delta[..|delta| - 1], id) + if delta[|delta| - 1].tokenId == id then delta[|delta| - 1].value else 0
  }

  lemma {:induction false} MergePlus(m: map<nat, int>, delta: seq<NftBalance>, id: nat)
    ensures AmountIn(MergeDelta(m, delta, true), id) == AmountIn(m, id) + Total(delta, id)
  {
    if delta != [] {
      MergePlus(m, delta[..|delta| - 1], id);
    }
  }

  lemma {:induction false} MergeMinus(m: map<nat, int>, delta: seq<NftBalance>, id: nat)
    ensures id in MergeDelta(m, delta, false) <==> id in m
    ensures id in m ==> MergeDelta(m, delta, false)[id] == m[id] - Total(delta, id)
  {
    if delta != [] {
      MergeMinus(m, delta[..|delta| - 1], id);
      MergeMinus(m, delta[..|delta| - 1], delta[|delta| - 1].tokenId);
    }
  }

  predicate AllPositive(m: map<nat, int>) {
    forall id :: id in m ==> m[id] > 0
  }

  lemma {:induction false} TotalNotNegative(delta: seq<NftBalance>, id: nat)
    requires forall d :: d in delta ==> d.value >= 0
    ensures Total(delta, id) >= 0
  {
    if delta != [] {
      TotalNotNegative(delta[..|delta| - 1], id);
    }
  }

  /** Receiving a list of NFTs and sending the same list away gives the holdings back, repeated and
      zero entries included. */
  lemma MergeRoundTrip(m: map<nat, int>, delta: seq<NftBalance>)
    requires AllPositive(m) && forall d :: d in delta ==> d.value >= 0
    ensures MergeNFTBalances(MergeNFTBalances(m, delta, true), delta, false) == m
  {
    var up := MergeNFTBalances(m, delta, true);
    var back := MergeNFTBalances(up, delta, false);
    forall id
      ensures AmountIn(back, id) == AmountIn(m, id)
    {
      TotalNotNegative(delta, id);
      MergePlus(m, delta, id);
      MergeMinus(up, delta, id);
      assert AmountIn(up, id) == AmountIn(m, id) + Total(delta, id);
    }
    forall id
      ensures id in back <==> id in m
      ensures id in m ==> back[id] == m[id]
    {
      assert AmountIn(back, id) == AmountIn(m, id);
    }
  }

  // ---------------------------------------------------------------------------
  // The operations on values
  // ---------------------------------------------------------------------------

  function SetDefault(s: Balances, k: Key, num: nat): Balances {
    if k in s.bals then s
    else
      var row := if k in s.db then s.db[k] else Bal(0, map[], num);
      s.(bals := s.bals[k := row], db := s.db[k := row], nfts := s.nfts[k := MergeNFTBalances(row.nfts, [], true)])
  }

  function Write(node: Node, s: Balances, k: Key, num: nat, balance: int): Balances
    requires k in s.bals
  {
    var bad := balance < 0;
    s.(bals := s.bals[k := s.bals[k].(balance := if bad then node(k, num) else balance, lastUpdate := num)],
       repaired := s.repaired || bad)
  }

  function Minus(node: Node, s: Balances, k: Key, amount: int, num: nat): Balances {
    if k.holder == ZERO_ADDRESS || amount <= 0 then s
    else
      var d := SetDefault(s, k, num);
      Write(node, d, k, num, d.bals[k].balance - amount)
  }

  function Plus(node: Node, s: Balances, k: Key, amount: int, num: nat): Balances {
    if k.holder == ZERO_ADDRESS || amount <= 0 then s
    else
      var d := SetDefault(s, k, num);
      Write(node, d, k, num, d.bals[k].balance + amount)
  }

  function MoveNFT(s: Balances, k: Key, delta: seq<NftBalance>, plus: bool, num: nat): Balances {
    if k.holder == ZERO_ADDRESS then s
    else
      var d := SetDefault(s, k, num);
      d.(nfts := d.nfts[k := MergeNFTBalances(if k in d.nfts then d.nfts[k] else map[], delta, plus)],
         bals := d.bals[k := d.bals[k].(lastUpdate := num)])
  }

  /** The row as it is saved. */
  function ToSave(s: Balances, k: Key): Bal
    requires k in s.bals
  {
    if k in s.nfts then s.bals[k].(nfts := s.nfts[k]) else s.bals[k]
  }

  predicate IsEmpty(b: Bal) {
    b.balance <= 0 && b.nfts == map[]
  }

  /** saveToDB and clean: an empty row is deleted, every other one saved. */
  function Saved(s: Balances): Balances {
    s.(bals := map[],
       db := map k | k in s.db.Keys + s.bals.Keys && (k in s.bals ==> !IsEmpty(ToSave(s, k)))
             :: if k in s.bals then ToSave(s, k) else s.db[k])
  }

  /** After a save, a row that was touched exists exactly when it has a balance or holds an NFT. */
  lemma SavedRowIff(s: Balances, k: Key)
    requires k in s.bals
    ensures k in Saved(s).db <==> s.bals[k].balance > 0 || ToSave(s, k).nfts != map[]
    ensures k in Saved(s).db ==> Saved(s).db[k] == ToSave(s, k)
  {
  }

  // ---------------------------------------------------------------------------
  // Supply
  // ---------------------------------------------------------------------------

  /** What the importer takes from a transaction's events. */
  datatype Event =
    | Transfer(token: Address, from: Address, to: Address, amount: int)
    | Deposit(token: Address, holder: Address, amount: int)
    | Withdrawal(token: Address, holder: Address, amount: int)
    | Save

  function Apply(node: Node, s: Balances, e: Event, num: nat): Balances {
    match e
    case Transfer(token, from, to, amount) =>
      Plus(node, Minus(node, s, Key(from, token), amount, num), Key(to, token), amount, num)
    case Deposit(token, holder, amount) => Plus(node, s, Key(holder, token), amount, num)
    case Withdrawal(token, holder, amount) => Minus(node, s, Key(holder, token), amount, num)
    case Save => Saved(s)
  }

  /** The events with the numbers of their blocks. */
  function ApplyAll(node: Node, s: Balances, events: seq<(Event, nat)>): Balances {
    if events == [] then s
    else Apply(node, ApplyAll(node, s, events[..|events| - 1]), events[|events| - 1].0, events[|events| - 1].1)
  }

  /** Minted minus burnt by one event: a transfer from the zero address creates, one to it destroys, and
      a wrapped-coin deposit or withdrawal counts as such. */
  function Issued(e: Event, token: Address): int {
    match e
    case Transfer(t, from, to, amount) =>
      if t != token || amount <= 0 then 0
      else (if to != ZERO_ADDRESS then amount else 0) - (if from != ZERO_ADDRESS then amount else 0)
    case Deposit(t, holder, amount) => if t == token && holder != ZERO_ADDRESS && amount > 0 then amount else 0
    case Withdrawal(t, holder, amount) => if t == token && holder != ZERO_ADDRESS && amount > 0 then -amount else 0
    case Save => 0
  }

  /** Two states that differ in the holdings of rows that are not cached only. */
  ghost predicate SameButStale(s: Balances, t: Balances) {
    && s.bals == t.bals && s.db == t.db && s.repaired == t.repaired
    && s.bals.Keys <= s.nfts.Keys && s.bals.Keys <= t.nfts.Keys
    && forall k :: k in s.bals ==> s.nfts[k] == t.nfts[k]
  }

  lemma SetDefaultIgnoresStale(s: Balances, t: Balances, k: Key, num: nat)
    requires SameButStale(s, t)
    ensures SameButStale(SetDefault(s, k, num), SetDefault(t, k, num))
  {
  }

  lemma MinusIgnoresStale(node: Node, s: Balances, t: Balances, k: Key, amount: int, num: nat)
    requires SameButStale(s, t)
    ensures SameButStale(Minus(node, s, k, amount, num), Minus(node, t, k, amount, num))
  {
    SetDefaultIgnoresStale(s, t, k, num);
    var d, e := SetDefault(s, k, num), SetDefault(t, k, num);
  }

  lemma PlusIgnoresStale(node: Node, s: Balances, t: Balances, k: Key, amount: int, num: nat)
    requires SameButStale(s, t)
    ensures SameButStale(Plus(node, s, k, amount, num), Plus(node, t, k, amount, num))
  {
    SetDefaultIgnoresStale(s, t, k, num);
    var d, e := SetDefault(s, k, num), SetDefault(t, k, num);
  }

  lemma MoveNFTIgnoresStale(s: Balances, t: Balances, k: Key, delta: seq<NftBalance>, plus: bool, num: nat)
    requires SameButStale(s, t)
    ensures SameButStale(MoveNFT(s, k, delta, plus, num), MoveNFT(t, k, delta, plus, num))
  {
    SetDefaultIgnoresStale(s, t, k, num);
  }

  lemma SaveIgnoresStale(s: Balances, t: Balances)
    requires SameButStale(s, t)
    ensures SameButStale(Saved(s), Saved(t))
  {
    assert forall k :: k in s.bals ==> ToSave(s, k) == ToSave(t, k);
  }

  lemma ApplyIgnoresStale(node: Node, s: Balances, t: Balances, e: Event, num: nat)
    requires SameButStale(s, t)
    ensures SameButStale(Apply(node, s, e, num), Apply(node, t, e, num))
  {
    match e
    case Transfer(token, from, to, amount) =>
      MinusIgnoresStale(node, s, t, Key(from, token), amount, num);
      PlusIgnoresStale(node, Minus(node, s, Key(from, token), amount, num),
                       Minus(node, t, Key(from, token), amount, num),
                       Key(to, token), amount, num);
    case Deposit(token, holder, amount) => PlusIgnoresStale(node, s, t, Key(holder, token), amount, num);
    case Withdrawal(token, holder, amount) => MinusIgnoresStale(node, s, t, Key(holder, token), amount, num);
    case Save => SaveIgnoresStale(s, t);
  }

  /** One use of the cache: an event of the importer, or a movement of NFTs, which only scripts make. */
  datatype Use = Take(e: Event) | MoveNfts(k: Key, delta: seq<NftBalance>, plus: bool)

  function Perform(node: Node, s: Balances, use: Use, num: nat): Balances {
    match use
    case Take(e) => Apply(node, s, e, num)
    case MoveNfts(k, delta, plus) => MoveNFT(s, k, delta, plus, num)
  }

  function PerformAll(node: Node, s: Balances, uses: seq<(Use, nat)>): Balances {
    if uses == [] then s
    else Perform(node, PerformAll(node, s, uses[..|uses| - 1]), uses[|uses| - 1].0, uses[|uses| - 1].1)
  }

  /** What clean leaves behind of the NFT holdings is never used, over any later run of events, saves and NFT
      movements: loading a row replaces it, and a save writes only the rows that are cached. */
  lemma {:induction false} StaleNftsDoNotMatter(node: Node, s: Balances, stale: map<Key, map<nat, int>>,
                                                uses: seq<(Use, nat)>)
    requires s.bals == map[]
    ensures SameButStale(PerformAll(node, s, uses), PerformAll(node, s.(nfts := stale), uses))
  {
    if uses != [] {
      var front, last := uses[..|uses| - 1], uses[|uses| - 1];
      var d, e := PerformAll(node, s, front), PerformAll(node, s.(nfts := stale), front);
      StaleNftsDoNotMatter(node, s, stale, front);
      match last.0
      case Take(event) => ApplyIgnoresStale(node, d, e, event, last.1);
      case MoveNfts(k, delta, plus) => MoveNFTIgnoresStale(d, e, k, delta, plus, last.1);
    }
  }

  function IssuedAll(events: seq<(Event, nat)>, token: Address): int {
    if events == [] then 0
    else IssuedAll(events[..|events| - 1], token) + Issued(events[|events| - 1].0, token)
  }

  function Current(s: Balances, k: Key): int {
    if k in s.bals then s.bals[k].balance else if k in s.db then s.db[k].balance else 0
  }

  ghost function Holdings(s: Balances, token: Address): map<Key, int> {
    map k | k in s.bals.Keys + s.db.Keys && k.token == token :: Current(s, k)
  }

  /** The balances of all holders of a token together. */
  ghost function Supply(s: Balances, token: Address): int {
    Sum(Holdings(s, token))
  }

  /** No cached balance is negative: whatever is written is checked. */
  ghost predicate CacheNotNegative(s: Balances) {
    forall k :: k in s.bals ==> s.bals[k].balance >= 0
  }

  lemma SetDefaultView(s: Balances, k: Key, num: nat, x: Key)
    ensures var d := SetDefault(s, k, num);
            && (x in d.bals.Keys + d.db.Keys <==> x in s.bals.Keys + s.db.Keys || x == k)
            && Current(d, x) == Current(s, x)
  {
  }

  lemma LoadedHoldings(s: Balances, d: Balances, k: Key, num: nat, token: Address)
    requires d == SetDefault(s, k, num)
    ensures Holdings(d, token)
         == if k.token == token then Holdings(s, token)[k := Current(s, k)] else Holdings(s, token)
  {
    forall x
      ensures x in d.bals.Keys + d.db.Keys <==> x in s.bals.Keys + s.db.Keys || x == k
      ensures Current(d, x) == Current(s, x)
    {
      SetDefaultView(s, k, num, x);
    }
  }

  lemma SetDefaultKeepsSupply(s: Balances, k: Key, num: nat, token: Address)
    ensures var d := SetDefault(s, k, num);
            Supply(d, token) == Supply(s, token) && d.repaired == s.repaired && d.bals[k].balance == Current(s, k)
  {
    LoadedHoldings(s, SetDefault(s, k, num), k, num, token);
    LoadsCurrent(s, k, num);
    var m := Holdings(s, token);
    assert k.token == token && k !in m ==> Current(s, k) == 0;
    SumPut(m, k, Current(s, k));
  }

  lemma WriteChangesSupply(node: Node, s: Balances, k: Key, num: nat, balance: int, token: Address)
    requires k in s.bals && balance >= 0
    ensures Supply(Write(node, s, k, num, balance), token)
         == Supply(s, token) + if k.token == token then balance - s.bals[k].balance else 0
  {
    var t := Write(node, s, k, num, balance);
    if k.token == token {
      assert Holdings(t, token) == Holdings(s, token)[k := balance];
      SumPut(Holdings(s, token), k, balance);
    } else {
      assert Holdings(t, token) == Holdings(s, token);
    }
  }

  /** Loading a row and changing its balance, when that stays covered. */
  lemma PutCovered(node: Node, s: Balances, k: Key, num: nat, change: int, token: Address)
    requires CacheNotNegative(s) && Current(s, k) + change >= 0
    ensures var t := Write(node, SetDefault(s, k, num), k, num, Current(s, k) + change);
            && t.repaired == s.repaired && CacheNotNegative(t)
            && Supply(t, token) == Supply(s, token) + if k.token == token then change else 0
  {
    SetDefaultKeepsSupply(s, k, num, token);
    WriteChangesSupply(node, SetDefault(s, k, num), k, num, Current(s, k) + change, token);
  }

  /** Loading a row and changing its balance. */
  lemma PutHolding(node: Node, s: Balances, k: Key, num: nat, change: int, token: Address)
    requires CacheNotNegative(s)
    ensures var t := Write(node, SetDefault(s, k, num), k, num, Current(s, k) + change);
            && (s.repaired ==> t.repaired)
            && (!t.repaired ==> CacheNotNegative(t)
                                && Supply(t, token) == Supply(s, token) + (if k.token == token then change else 0))
  {
    if Current(s, k) + change >= 0 {
      PutCovered(node, s, k, num, change, token);
    }
  }

  /** The loaded row has the balance that was seen before. */
  lemma LoadsCurrent(s: Balances, k: Key, num: nat)
    ensures SetDefault(s, k, num).bals[k].balance == Current(s, k)
  {
  }

  lemma MinusExact(node: Node, s: Balances, k: Key, amount: int, num: nat, token: Address)
    requires CacheNotNegative(s)
    ensures var t := Minus(node, s, k, amount, num);
            && (s.repaired ==> t.repaired)
            && (!t.repaired ==> CacheNotNegative(t))
            && (!t.repaired ==>
                  Supply(t, token) == Supply(s, token)
                    - (if k.token == token && k.holder != ZERO_ADDRESS && amount > 0 then amount else 0))
  {
    if k.holder != ZERO_ADDRESS && amount > 0 {
      LoadsCurrent(s, k, num);
      assert Minus(node, s, k, amount, num) == Write(node, SetDefault(s, k, num), k, num, Current(s, k) + -amount);
      PutHolding(node, s, k, num, -amount, token);
    } else {
      assert Minus(node, s, k, amount, num) == s;
    }
  }

  lemma PlusExact(node: Node, s: Balances, k: Key, amount: int, num: nat, token: Address)
    requires CacheNotNegative(s)
    ensures var t := Plus(node, s, k, amount, num);
            && (s.repaired ==> t.repaired)
            && (!t.repaired ==> CacheNotNegative(t))
            && (!t.repaired ==>
                  Supply(t, token) == Supply(s, token)
                    + (if k.token == token && k.holder != ZERO_ADDRESS && amount > 0 then amount else 0))
  {
    if k.holder != ZERO_ADDRESS && amount > 0 {
      LoadsCurrent(s, k, num);
      assert Plus(node, s, k, amount, num) == Write(node, SetDefault(s, k, num), k, num, Current(s, k) + amount);
      PutHolding(node, s, k, num, amount, token);
    } else {
      assert Plus(node, s, k, amount, num) == s;
    }
  }

  /** Deleting a row of balance zero takes nothing from the supply. */
  lemma SaveKeepsSupply(s: Balances, token: Address)
    requires CacheNotNegative(s)
    ensures Supply(Saved(s), token) == Supply(s, token)
  {
    var before, after := Holdings(s, token), Holdings(Saved(s), token);
    assert after.Keys <= before.Keys;
    assert forall k :: k in before && k !in after ==> before[k] == 0;
    assert forall k :: k in after ==> after[k] == before[k];
    DropZeros(before, after);
  }

  lemma {:induction false} DropZeros(m: map<Key, int>, n: map<Key, int>)
    requires n.Keys <= m.Keys && (forall k :: k in n ==> n[k] == m[k]) && (forall k :: k in m && k !in n ==> m[k] == 0)
    ensures Sum(m) == Sum(n)
    decreases |m|
  {
    if k :| k in m && k !in n {
      SumTakes(m, k);
      DropZeros(m - {k}, n);
    } else {
      assert m == n;
    }
  }

  lemma ApplyExact(node: Node, s: Balances, e: Event, num: nat, token: Address)
    requires CacheNotNegative(s)
    ensures var t := Apply(node, s, e, num);
            && (s.repaired ==> t.repaired)
            && (!t.repaired ==> CacheNotNegative(t) && Supply(t, token) == Supply(s, token) + Issued(e, token))
  {
    match e
    case Transfer(tk, from, to, amount) =>
      MinusExact(node, s, Key(from, tk), amount, num, token);
      var d := Minus(node, s, Key(from, tk), amount, num);
      if d.repaired {
        RepairStays(node, d, Deposit(tk, to, amount), num);
      } else {
        PlusExact(node, d, Key(to, tk), amount, num, token);
      }
    case Deposit(tk, holder, amount) => PlusExact(node, s, Key(holder, tk), amount, num, token);
    case Withdrawal(tk, holder, amount) => MinusExact(node, s, Key(holder, tk), amount, num, token);
    case Save => SaveKeepsSupply(s, token);
  }

  /** The main result: over any run without a repair, whenever it is saved, the sum of a token's balances
      changes by what is minted minus what is burnt. */
  lemma {:induction false} SupplyConserved(node: Node, s: Balances, events: seq<(Event, nat)>, token: Address)
    requires CacheNotNegative(s)
    ensures var t := ApplyAll(node, s, events);
            && (s.repaired ==> t.repaired)
            && (!t.repaired ==> CacheNotNegative(t) && Supply(t, token) == Supply(s, token) + IssuedAll(events, token))
  {
    if events != [] {
      var front := events[..|events| - 1];
      SupplyConserved(node, s, front, token);
      var d := ApplyAll(node, s, front);
      if !d.repaired {
        ApplyExact(node, d, events[|events| - 1].0, events[|events| - 1].1, token);
      } else {
        RepairStays(node, d, events[|events| - 1].0, events[|events| - 1].1);
      }
    }
  }

  lemma RepairStays(node: Node, s: Balances, e: Event, num: nat)
    requires s.repaired
    ensures Apply(node, s, e, num).repaired
  {
  }
}
