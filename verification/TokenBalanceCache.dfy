/** The token balance cache as written. */
module TokenBalanceCache {
  import opened Common
  import opened TokenBalances

  /** mergeNFTBalances on lists: an object keyed by token id is filled from `origin`, changed by `delta`,
      and its positive entries are listed, in the order the object enumerates them. */
  method MergeNFTBalances(origin: seq<NftBalance>, delta: seq<NftBalance>, plus: bool) returns (bals: seq<NftBalance>)
    ensures Distinct(bals) && AsMap(bals) == TokenBalances.MergeNFTBalances(AsMap(origin), delta, plus)
  {
    var resultMap: map<nat, int> := map[];
    for i := 0 to |origin|
      invariant resultMap == AsMap(origin[..i])
    {
      assert origin[..i + 1][..i] == origin[..i];
      resultMap := resultMap[origin[i].tokenId := origin[i].value];
    }
    assert origin[..|origin|] == origin;
    ghost var filled := resultMap;
    for i := 0 to |delta|
      invariant resultMap == MergeDelta(filled, delta[..i], plus)
    {
      assert delta[..i + 1][..i] == delta[..i];
      var d := delta[i];
      if d.tokenId in resultMap {
        if plus {
          resultMap := resultMap[d.tokenId := resultMap[d.tokenId] + d.value];
        } else {
          resultMap := resultMap[d.tokenId := resultMap[d.tokenId] - d.value];
        }
      } else {
        if plus {
          resultMap := resultMap[d.tokenId := d.value];
        }
      }
    }
    assert delta[..|delta|] == delta;
    bals := [];
    var ids := resultMap.Keys;
    while ids != {}
      invariant ids <= resultMap.Keys
      invariant Distinct(bals)
      invariant forall id :: id in AsMap(bals) <==> id in resultMap && id !in ids && resultMap[id] > 0
      invariant forall id :: id in AsMap(bals) ==> AsMap(bals)[id] == resultMap[id]
      decreases ids
    {
      var id :| id in ids;
      if resultMap[id] > 0 {
        bals := bals + [NftBalance(id, resultMap[id])];
      }
      ids := ids - {id};
    }
  }

  /** A list read as an object: the last entry of an id counts. */
  function AsMap(s: seq<NftBalance>): map<nat, int> {
    if s == [] then map[] else AsMap(s[..|s| - 1])[s[|s| - 1].tokenId := s[|s| - 1].value]
  }

  /** No id is listed twice. */
  predicate Distinct(s: seq<NftBalance>) {
    s == [] || (Distinct(s[..|s| - 1]) && s[|s| - 1].tokenId !in AsMap(s[..|s| - 1]))
  }

  class TokenBalanceCache {
    const node: Node
    var bals: map<Key, Bal>
    var nfts: map<Key, map<nat, int>>
    var db: map<Key, Bal>
    ghost var repaired: bool

    constructor (node: Node, db: map<Key, Bal>)
      ensures this.node == node && Abs() == Balances(map[], map[], db, false)
    {
      this.node, this.db, bals, nfts, repaired := node, db, map[], map[], false;
    }

    ghost function Abs(): Balances
      reads this
    {
      Balances(bals, nfts, db, repaired)
    }

    method SetDefault(key: Key, num: nat)
      modifies this
      ensures Abs() == TokenBalances.SetDefault(old(Abs()), key, num)
    {
      if key in bals {
        return;
      }
      if key !in db {
        var newBal := Bal(0, map[], num);
        db := db[key := newBal];
        bals := bals[key := newBal];
      } else {
        bals := bals[key := db[key]];
      }
      nfts := nfts[key := TokenBalances.MergeNFTBalances(bals[key].nfts, [], true)];
    }

    method FixTokenBalance(key: Key, num: nat)
      requires key in bals
      modifies this
      ensures key in bals && bals == old(bals)[key := bals[key]]
      ensures bals[key] == if old(bals)[key].balance == node(key, num) then old(bals)[key]
                           else Bal(node(key, num), old(bals)[key].nfts, num)
      ensures nfts == old(nfts) && db == old(db) && repaired
    {
      var chainBal := node(key, num);
      if bals[key].balance != chainBal {
        bals := bals[key := bals[key].(balance := chainBal, lastUpdate := num)];
      }
      repaired := true;
    }

    method Minus(key: Key, amount: int, num: nat)
      modifies this
      ensures Abs() == TokenBalances.Minus(node, old(Abs()), key, amount, num)
    {
      if key.holder == ZERO_ADDRESS || amount <= 0 {
        return;
      }
      SetDefault(key, num);
      bals := bals[key := bals[key].(balance := bals[key].balance - amount)];
      if bals[key].balance < 0 {
        FixTokenBalance(key, num);
      }
      bals := bals[key := bals[key].(lastUpdate := num)];
    }

    method Plus(key: Key, amount: int, num: nat)
      modifies this
      ensures Abs() == TokenBalances.Plus(node, old(Abs()), key, amount, num)
    {
      if key.holder == ZERO_ADDRESS || amount <= 0 {
        return;
      }
      SetDefault(key, num);
      bals := bals[key := bals[key].(balance := bals[key].balance + amount)];
      if bals[key].balance < 0 {
        FixTokenBalance(key, num);
      }
      bals := bals[key := bals[key].(lastUpdate := num)];
    }

    /** plusNFT and minusNFT. */
    method MoveNFT(key: Key, delta: seq<NftBalance>, plus: bool, num: nat)
      modifies this
      ensures Abs() == TokenBalances.MoveNFT(old(Abs()), key, delta, plus, num)
    {
      if key.holder == ZERO_ADDRESS {
        return;
      }
      SetDefault(key, num);
      var held := if key in nfts then nfts[key] else map[];
      nfts := nfts[key := TokenBalances.MergeNFTBalances(held, delta, plus)];
      bals := bals[key := bals[key].(lastUpdate := num)];
    }

    /** saveToDB, then clean, which empties `bals` only. */
    method SaveToDB()
      modifies this
      ensures Abs() == Saved(old(Abs()))
    {
      ghost var s := Abs();
      var todo := bals.Keys;
      while todo != {}
        invariant todo <= bals.Keys && bals == s.bals && nfts == s.nfts && repaired == s.repaired
        invariant forall k :: k in db <==>
                    (k in s.db || k in s.bals.Keys - todo) && (k in s.bals.Keys - todo ==> !IsEmpty(ToSave(s, k)))
        invariant forall k :: k in db ==> db[k] == if k in s.bals.Keys - todo then ToSave(s, k) else s.db[k]
        decreases todo
      {
        var k :| k in todo;
        var b := if k in nfts then bals[k].(nfts := nfts[k]) else bals[k];
        if b.balance <= 0 && b.nfts == map[] {
          db := db - {k};
        } else {
          db := db[k := b];
        }
        todo := todo - {k};
      }
      assert db == Saved(s).db;
      bals := map[];
    }

    /** The token part of one transaction event. */
    method Handle(e: Event, num: nat)
      modifies this
      ensures Abs() == Apply(node, old(Abs()), e, num)
    {
      match e {
        case Transfer(token, from, to, amount) =>
          Minus(Key(from, token), amount, num);
          Plus(Key(to, token), amount, num);
        case Deposit(token, holder, amount) => Plus(Key(holder, token), amount, num);
        case Withdrawal(token, holder, amount) => Minus(Key(holder, token), amount, num);
        case Save => SaveToDB();
      }
    }
  }
}
