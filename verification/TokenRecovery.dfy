/**
 What a save of the token balances that dies half-way leaves behind, and what the cleanup makes of it. The
 cleanup repairs the stored rows that were updated after the head; a row that the save has deleted is not
 there to be repaired.
 */
module TokenRecovery {
  import opened TokenBalances

  // ---------------------------------------------------------------------------
  // The window before the save
  // ---------------------------------------------------------------------------

  /** Between two windows, with the head at block h: every row has the chain's balance, and nobody else has any. */
  ghost predicate AtRest(node: Node, s: Balances, h: nat) {
    && s.bals == map[]
    && (forall k :: k in s.db ==> s.db[k].balance == node(k, h))
    && (forall k: Key :: k !in s.db ==> node(k, h) == 0)
  }

  /** Within a window: the rows that were not updated after the head are still right, and every cached row is stored. */
  ghost predicate InWindow(node: Node, s: Balances, h: nat) {
    && (forall k :: k in s.db && s.db[k].lastUpdate <= h ==> s.db[k].balance == node(k, h))
    && (forall k: Key :: k !in s.db ==> node(k, h) == 0)
    && (forall k :: k in s.bals ==> k in s.db && s.bals[k].lastUpdate > h)
  }

  lemma MinusStaysInWindow(node: Node, s: Balances, k: Key, amount: int, num: nat, h: nat)
    requires InWindow(node, s, h) && num > h
    ensures InWindow(node, Minus(node, s, k, amount, num), h)
  {
  }

  lemma PlusStaysInWindow(node: Node, s: Balances, k: Key, amount: int, num: nat, h: nat)
    requires InWindow(node, s, h) && num > h
    ensures InWindow(node, Plus(node, s, k, amount, num), h)
  {
  }

  /** The events of one window, before it is saved. */
  ghost predicate OfWindow(events: seq<(Event, nat)>, h: nat) {
    forall e :: e in events ==> !e.0.Save? && e.1 > h
  }

  lemma {:induction false} WindowStaysInWindow(node: Node, s: Balances, events: seq<(Event, nat)>, h: nat)
    requires AtRest(node, s, h) && OfWindow(events, h)
    ensures InWindow(node, ApplyAll(node, s, events), h)
  {
    if events != [] {
      var front := events[..|events| - 1];
      var (e, num) := events[|events| - 1];
      WindowStaysInWindow(node, s, front, h);
      assert events[|events| - 1] in events;
      var d := ApplyAll(node, s, front);
      match e {
        case Transfer(token, from, to, amount) =>
          MinusStaysInWindow(node, d, Key(from, token), amount, num, h);
          PlusStaysInWindow(node, Minus(node, d, Key(from, token), amount, num), Key(to, token), amount, num, h);
        case Deposit(token, holder, amount) => PlusStaysInWindow(node, d, Key(holder, token), amount, num, h);
        case Withdrawal(token, holder, amount) => MinusStaysInWindow(node, d, Key(holder, token), amount, num, h);
        case Save =>
      }
    }
  }

  // ---------------------------------------------------------------------------
  // The dying save and the cleanup
  // ---------------------------------------------------------------------------

  /** The table after the save has dealt with the rows of `done`, in any order, and not with the others. */
  function SavedPart(s: Balances, done: set<Key>): map<Key, Bal>
    requires done <= s.bals.Keys
  {
    map k | k in s.db.Keys + done && (k in done ==> !IsEmpty(ToSave(s, k))) ::
      if k in done then ToSave(s, k) else s.db[k]
  }

  /** fixTokenBalance, with the head's block stored: the balance only, and only if it differs. */
  function FixRow(node: Node, k: Key, b: Bal, h: nat): Bal {
    if b.balance != node(k, h) then b.(balance := node(k, h), lastUpdate := h) else b
  }

  predicate IsLate(b: Bal, h: nat) {
    b.lastUpdate > h
  }

  /** The table after the rows of `keys` have been repaired. */
  function FixRows(node: Node, db: map<Key, Bal>, keys: set<Key>, h: nat): map<Key, Bal> {
    map k | k in db :: if k in keys then FixRow(node, k, db[k], h) else db[k]
  }

  /** The rows that were updated after the head and the negative ones are repaired, and no row appears or goes. */
  ghost predicate CleanedUp(node: Node, db: map<Key, Bal>, after: map<Key, Bal>, h: nat) {
    && after.Keys == db.Keys
    && forall k :: k in db ==>
         after[k] == if IsLate(db[k], h) || db[k].balance < 0 then FixRow(node, k, db[k], h) else db[k]
  }

  /** A row that is late or negative gets the chain's balance, dated by the head. A row that has it already is not
      saved, and so stays late; every other row, and every holding, is left as it is. */
  ghost predicate IsRepaired(before: Bal, after: Bal, chain: int, h: nat) {
    && after.nfts == before.nfts
    && ((before.lastUpdate > h || before.balance < 0) && before.balance != chain ==>
          after.balance == chain && after.lastUpdate == h)
    && ((before.lastUpdate <= h && before.balance >= 0) || before.balance == chain ==> after == before)
  }

  class TokenBalanceTable {
    const node: Node
    var db: map<Key, Bal>

    /** The token part of cleanUpIncompleteData: first the late rows, then the negative ones. */
    method CleanUp(h: nat)
      modifies this
      ensures CleanedUp(node, old(db), db, h)
      ensures db.Keys == old(db.Keys) && forall k :: k in db ==> IsRepaired(old(db)[k], db[k], node(k, h), h)
    {
      var late := set k | k in db && IsLate(db[k], h);
      FixAll(late, h);
      var negative := set k | k in db && db[k].balance < 0;
      FixAll(negative, h);
    }

    method FixAll(keys: set<Key>, h: nat)
      requires keys <= db.Keys
      modifies this
      ensures db == FixRows(node, old(db), keys, h)
    {
      var todo := keys;
      while todo != {}
        invariant todo <= keys && db == FixRows(node, old(db), keys - todo, h)
      {
        var k :| k in todo;
        var bal := db[k];
        if bal.balance != node(k, h) {
          db := db[k := bal.(balance := node(k, h), lastUpdate := h)];
        }
        todo := todo - {k};
      }
    }
  }

  function BalanceIn(db: map<Key, Bal>, k: Key): int {
    if k in db then db[k].balance else 0
  }

  function NftsIn(db: map<Key, Bal>, k: Key): map<nat, int> {
    if k in db then db[k].nfts else map[]
  }

  /** The save dies after deleting the row of a holder that had a balance at the head. */
  ghost predicate Loses(node: Node, s: Balances, done: set<Key>, k: Key, h: nat)
    requires done <= s.bals.Keys
  {
    k in done && IsEmpty(ToSave(s, k)) && node(k, h) != 0
  }

  /**
   The main result: after any window, any part of its save and the cleanup, a holder's balance is the chain's
   at the head, except exactly for the holders whose rows the dying save has deleted.
   */
  lemma RecoveredIff(node: Node, s: Balances, events: seq<(Event, nat)>, h: nat, done: set<Key>, after: map<Key, Bal>,
                     k: Key)
    requires AtRest(node, s, h) && OfWindow(events, h)
    requires var t := ApplyAll(node, s, events); done <= t.bals.Keys && CleanedUp(node, SavedPart(t, done), after, h)
    ensures BalanceIn(after, k) == node(k, h) <==> !Loses(node, ApplyAll(node, s, events), done, k, h)
  {
    var t := ApplyAll(node, s, events);
    WindowStaysInWindow(node, s, events, h);
    var db := SavedPart(t, done);
    if k in db {
      assert k in done ==> db[k].lastUpdate > h;
    }
  }

  /** NFT holdings are not repaired: those that the dying save has written stay. */
  lemma NftsStay(node: Node, s: Balances, h: nat, done: set<Key>, after: map<Key, Bal>, k: Key)
    requires done <= s.bals.Keys && CleanedUp(node, SavedPart(s, done), after, h)
    ensures NftsIn(after, k) == if k in done then ToSave(s, k).nfts else NftsIn(s.db, k)
  {
    var db := SavedPart(s, done);
    assert k in done && k !in db ==> ToSave(s, k).nfts == map[];
  }

  /** A cleanup that dies after some repairs, and is done again, ends as one that did not. */
  lemma CleanUpAgain(node: Node, db: map<Key, Bal>, keys: set<Key>, h: nat, after: map<Key, Bal>, again: map<Key, Bal>)
    requires forall k: Key :: node(k, h) >= 0
    requires forall k :: k in keys && k in db ==> IsLate(db[k], h) || db[k].balance < 0
    requires CleanedUp(node, db, after, h) && CleanedUp(node, FixRows(node, db, keys, h), again, h)
    ensures again == after
  {
    var part := FixRows(node, db, keys, h);
    forall k | k in db
      ensures again[k] == after[k]
    {
      assert part[k] == if k in keys then FixRow(node, k, db[k], h) else db[k];
    }
    assert again.Keys == after.Keys;
  }

  /** Such a loss happens: a holder sends all of it in one block, and the save dies after its row is deleted. */
  lemma DeletedRowIsLost()
    ensures var k, other := Key(1, 9), Key(2, 9);
            var node: Node := (x: Key, n: nat) => if x == (if n == 0 then k else other) then 5 else 0;
            var s := Balances(map[], map[], map[k := Bal(5, map[], 0)], false);
            var events := [(Transfer(9, 1, 2, 5), 1)];
            var t := ApplyAll(node, s, events);
            && AtRest(node, s, 0) && OfWindow(events, 0) && k in t.bals && Loses(node, t, {k}, k, 0)
  {
    var k := Key(1, 9);
    var s := Balances(map[], map[], map[k := Bal(5, map[], 0)], false);
    var events: seq<(Event, nat)> := [(Transfer(9, 1, 2, 5), 1)];
    assert events[..0] == [];
  }
}
