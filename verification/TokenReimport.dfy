/**
 The import of a window for the second time, after a save of the token balances that died and the cleanup. A
 holder whose row was deleted starts from nothing; only the repair of a negative balance can bring it back.
 */
module TokenReimport {
  import opened Common
  import opened TokenBalances
  import opened TokenNfts
  import opened TokenRecovery

  /** A change of one holder's balance, with the number of its block. */
  datatype Change = Change(amount: int, num: nat)

  // ---------------------------------------------------------------------------
  // One holder at a time
  // ---------------------------------------------------------------------------

  function ChangeIf(cond: bool, amount: int, num: nat): seq<Change> {
    if cond then [Change(amount, num)] else []
  }

  /** What an event does to one holder, in order. */
  function ChangesBy(e: Event, num: nat, k: Key): seq<Change> {
    if k.holder == ZERO_ADDRESS then []
    else
      match e
      case Transfer(token, from, to, amount) =>
        if token != k.token || amount <= 0 then []
        else ChangeIf(from == k.holder, -amount, num) + ChangeIf(to == k.holder, amount, num)
      case Deposit(token, holder, amount) => ChangeIf(Key(holder, token) == k && amount > 0, amount, num)
      case Withdrawal(token, holder, amount) => ChangeIf(Key(holder, token) == k && amount > 0, -amount, num)
      case Save => []
  }

  function Changes(events: seq<(Event, nat)>, k: Key): seq<Change> {
    if events == [] then []
    else Changes(events[..|events| - 1], k) + ChangesBy(events[|events| - 1].0, events[|events| - 1].1, k)
  }

  /** A balance after some changes: when it turns negative it becomes that of the chain after the block. */
  function Replay(node: Node, k: Key, start: int, changes: seq<Change>): int {
    if changes == [] then start
    else
      var last := changes[|changes| - 1];
      var balance := Replay(node, k, start, changes[..|changes| - 1]) + last.amount;
      if balance < 0 then node(k, last.num) else balance
  }

  lemma {:induction false} ReplayAppend(node: Node, k: Key, start: int, a: seq<Change>, b: seq<Change>)
    ensures Replay(node, k, start, a + b) == Replay(node, k, Replay(node, k, start, a), b)
  {
    if b == [] {
      assert a + b == a;
    } else {
      assert (a + b)[..|a + b| - 1] == a + b[..|b| - 1];
      ReplayAppend(node, k, start, a, b[..|b| - 1]);
    }
  }

  lemma PutIsReplay(node: Node, s: Balances, x: Key, amount: int, num: nat, k: Key)
    ensures var d := SetDefault(s, x, num);
            var t := Write(node, d, x, num, d.bals[x].balance + amount);
            Current(t, k) == Replay(node, k, Current(s, k), ChangeIf(x == k, amount, num))
  {
    SetDefaultView(s, x, num, k);
  }

  lemma MinusIsReplay(node: Node, s: Balances, x: Key, amount: int, num: nat, k: Key)
    ensures Current(Minus(node, s, x, amount, num), k)
         == Replay(node, k, Current(s, k), ChangeIf(x == k && x.holder != ZERO_ADDRESS && amount > 0, -amount, num))
  {
    if x.holder != ZERO_ADDRESS && amount > 0 {
      PutIsReplay(node, s, x, -amount, num, k);
    }
  }

  lemma PlusIsReplay(node: Node, s: Balances, x: Key, amount: int, num: nat, k: Key)
    ensures Current(Plus(node, s, x, amount, num), k)
         == Replay(node, k, Current(s, k), ChangeIf(x == k && x.holder != ZERO_ADDRESS && amount > 0, amount, num))
  {
    if x.holder != ZERO_ADDRESS && amount > 0 {
      PutIsReplay(node, s, x, amount, num, k);
    }
  }

  lemma EventIsReplay(node: Node, s: Balances, e: Event, num: nat, k: Key)
    requires !e.Save?
    ensures Current(Apply(node, s, e, num), k) == Replay(node, k, Current(s, k), ChangesBy(e, num, k))
  {
    match e
    case Transfer(token, from, to, amount) =>
      MinusIsReplay(node, s, Key(from, token), amount, num, k);
      PlusIsReplay(node, Minus(node, s, Key(from, token), amount, num), Key(to, token), amount, num, k);
      if k.holder != ZERO_ADDRESS && token == k.token && amount > 0 {
        ReplayAppend(node, k, Current(s, k), ChangeIf(from == k.holder, -amount, num),
                     ChangeIf(to == k.holder, amount, num));
      }
    case Deposit(token, holder, amount) => PlusIsReplay(node, s, Key(holder, token), amount, num, k);
    case Withdrawal(token, holder, amount) => MinusIsReplay(node, s, Key(holder, token), amount, num, k);
  }

  /** The cache plays the changes of every holder on its own. */
  lemma {:induction false} ImportIsReplay(node: Node, s: Balances, events: seq<(Event, nat)>, k: Key)
    requires forall e :: e in events ==> !e.0.Save?
    ensures Current(ApplyAll(node, s, events), k) == Replay(node, k, Current(s, k), Changes(events, k))
  {
    if events != [] {
      var front, last := events[..|events| - 1], events[|events| - 1];
      ImportIsReplay(node, s, front, k);
      assert last in events;
      EventIsReplay(node, ApplyAll(node, s, front), last.0, last.1, k);
      ReplayAppend(node, k, Current(s, k), Changes(front, k), ChangesBy(last.0, last.1, k));
    }
  }

  // ---------------------------------------------------------------------------
  // How far off the balance is
  // ---------------------------------------------------------------------------

  /** The sum of the first n changes. */
  function Total(changes: seq<Change>, n: nat): int
    requires n <= |changes|
  {
    if n == 0 then 0 else Total(changes, n - 1) + changes[n - 1].amount
  }

  /** The balance due after n changes. */
  function Due(head: int, changes: seq<Change>, n: nat): int
    requires n <= |changes|
  {
    head + Total(changes, n)
  }

  /** No change overdraws. */
  ghost predicate Covered(head: int, changes: seq<Change>, n: nat)
    requires n <= |changes|
  {
    forall i: nat :: i <= n ==> Due(head, changes, i) >= 0
  }

  /** One past the last change of the i-th change's block. */
  function BlockEnd(changes: seq<Change>, i: nat): (j: nat)
    requires i < |changes|
    ensures i < j <= |changes|
    decreases |changes| - i
  {
    if i + 1 < |changes| && changes[i + 1].num == changes[i].num then BlockEnd(changes, i + 1) else i + 1
  }

  /** The chain's balance after a block is what is due after its last change. */
  predicate TrackedAt(node: Node, k: Key, h: nat, changes: seq<Change>, i: nat)
    requires i < |changes|
  {
    node(k, changes[i].num) == Due(node(k, h), changes, BlockEnd(changes, i))
  }

  /** The changes are the chain's: they never overdraw the balance at the head, and add up to every later one. */
  ghost predicate Tracks(node: Node, k: Key, h: nat, changes: seq<Change>) {
    && Covered(node(k, h), changes, |changes|)
    && (forall i: nat {:trigger TrackedAt(node, k, h, changes, i)} ::
          i < |changes| ==> TrackedAt(node, k, h, changes, i))
  }

  /** The rest of a block's changes after the i-th. A repair counts them, and then they are counted again. */
  function Rest(changes: seq<Change>, i: nat): int
    requires i < |changes|
  {
    Total(changes, BlockEnd(changes, i)) - Total(changes, i + 1)
  }

  /** The error after n changes, when `head` was due and `error` more was there. A repair fires when due and error
      together are negative, and makes the error the rest of its block. */
  function Error(head: int, error: int, changes: seq<Change>, n: nat): int
    requires n <= |changes|
  {
    if n == 0 then error
    else
      var e := Error(head, error, changes, n - 1);
      if Due(head, changes, n) + e < 0 then Rest(changes, n - 1) else e
  }

  lemma {:induction false} ReplayIsOff(node: Node, k: Key, h: nat, start: int, changes: seq<Change>, n: nat)
    requires Tracks(node, k, h, changes) && n <= |changes|
    ensures Replay(node, k, start, changes[..n])
         == Due(node(k, h), changes, n) + Error(node(k, h), start - node(k, h), changes, n)
  {
    if n > 0 {
      ReplayIsOff(node, k, h, start, changes, n - 1);
      ReplayTake(node, k, start, changes, n);
      AfterBlock(node, k, h, changes, n - 1);
    }
  }

  lemma ReplayTake(node: Node, k: Key, start: int, changes: seq<Change>, n: nat)
    requires 0 < n <= |changes|
    ensures var last := changes[n - 1];
            var balance := Replay(node, k, start, changes[..n - 1]) + last.amount;
            Replay(node, k, start, changes[..n]) == if balance < 0 then node(k, last.num) else balance
  {
    assert changes[..n][..n - 1] == changes[..n - 1];
  }

  lemma AfterBlock(node: Node, k: Key, h: nat, changes: seq<Change>, i: nat)
    requires Tracks(node, k, h, changes) && i < |changes|
    ensures node(k, changes[i].num) == Due(node(k, h), changes, i + 1) + Rest(changes, i)
  {
    assert TrackedAt(node, k, h, changes, i);
  }

  /** No error stays none. */
  lemma {:induction false} RightStaysRight(head: int, changes: seq<Change>, n: nat)
    requires n <= |changes| && Covered(head, changes, n)
    ensures Error(head, 0, changes, n) == 0
  {
    if n > 0 {
      RightStaysRight(head, changes, n - 1);
      assert Due(head, changes, n) >= 0;
    }
  }

  // ---------------------------------------------------------------------------
  // Main results
  // ---------------------------------------------------------------------------

  /** The new process after the cleanup. */
  function Restarted(db: map<Key, Bal>): Balances {
    Balances(map[], map[], db, false)
  }

  /** A window after block h is imported, its save dies after the rows of `done`, and the cleanup leaves `after`. */
  ghost predicate DiedAndCleaned(node: Node, s: Balances, events: seq<(Event, nat)>, h: nat, done: set<Key>,
                                 after: map<Key, Bal>)
  {
    && AtRest(node, s, h) && OfWindow(events, h)
    && done <= ApplyAll(node, s, events).bals.Keys
    && CleanedUp(node, SavedPart(ApplyAll(node, s, events), done), after, h)
  }

  ghost predicate WasLost(node: Node, s: Balances, events: seq<(Event, nat)>, h: nat, done: set<Key>, k: Key)
    requires done <= ApplyAll(node, s, events).bals.Keys
  {
    Loses(node, ApplyAll(node, s, events), done, k, h)
  }

  lemma StartsFrom(node: Node, s: Balances, events: seq<(Event, nat)>, h: nat, done: set<Key>, after: map<Key, Bal>,
                   k: Key)
    requires DiedAndCleaned(node, s, events, h, done, after)
    ensures Current(Restarted(after), k) == if WasLost(node, s, events, h, done, k) then 0 else node(k, h)
  {
    RecoveredIff(node, s, events, h, done, after, k);
  }

  /** The chain's balance after the changes. */
  predicate EndsAt(node: Node, k: Key, h: nat, changes: seq<Change>, end: nat) {
    node(k, end) == Due(node(k, h), changes, |changes|)
  }

  lemma ReplayEnds(node: Node, k: Key, h: nat, start: int, error: int, changes: seq<Change>, end: nat)
    requires Tracks(node, k, h, changes) && EndsAt(node, k, h, changes, end) && error == start - node(k, h)
    ensures Replay(node, k, start, changes) == node(k, end) + Error(node(k, h), error, changes, |changes|)
  {
    ReplayIsOff(node, k, h, start, changes, |changes|);
    assert changes[..|changes|] == changes;
  }

  lemma LostRightIff(node: Node, k: Key, h: nat, changes: seq<Change>, end: nat)
    requires Tracks(node, k, h, changes) && EndsAt(node, k, h, changes, end) && node(k, h) != 0
    ensures Replay(node, k, 0, changes) == node(k, end) <==> Healed(node(k, h), changes)
  {
    ReplayEnds(node, k, h, 0, -node(k, h), changes, end);
    ErrorFreeIff(node(k, h), changes, |changes|);
  }

  lemma KeptIsRight(node: Node, k: Key, h: nat, changes: seq<Change>, end: nat)
    requires Tracks(node, k, h, changes) && EndsAt(node, k, h, changes, end)
    ensures Replay(node, k, node(k, h), changes) == node(k, end)
  {
    ReplayEnds(node, k, h, node(k, h), 0, changes, end);
    RightStaysRight(node(k, h), changes, |changes|);
  }

  /**
   The window is imported again, perhaps with more blocks. A holder that has lost nothing ends right. One whose
   row was deleted ends right exactly if a repair comes upon it whose block has no more to add.
   */
  lemma ReimportedIff(node: Node, s: Balances, events: seq<(Event, nat)>, h: nat, done: set<Key>, after: map<Key, Bal>,
                      again: seq<(Event, nat)>, k: Key, end: nat)
    requires DiedAndCleaned(node, s, events, h, done, after) && OfWindow(again, h)
    requires Tracks(node, k, h, Changes(again, k)) && EndsAt(node, k, h, Changes(again, k), end)
    ensures Current(ApplyAll(node, Restarted(after), again), k) == node(k, end)
       <==> !WasLost(node, s, events, h, done, k) || Healed(node(k, h), Changes(again, k))
  {
    StartsFrom(node, s, events, h, done, after, k);
    ImportIsReplay(node, Restarted(after), again, k);
    if WasLost(node, s, events, h, done, k) {
      LostRightIff(node, k, h, Changes(again, k), end);
    } else {
      KeptIsRight(node, k, h, Changes(again, k), end);
    }
  }

  /** A lost holder that never falls below what it had at the head stays short of exactly that. */
  lemma NeverBelowStaysLost(node: Node, s: Balances, events: seq<(Event, nat)>, h: nat, done: set<Key>,
                            after: map<Key, Bal>, again: seq<(Event, nat)>, k: Key, end: nat)
    requires DiedAndCleaned(node, s, events, h, done, after) && WasLost(node, s, events, h, done, k)
    requires OfWindow(again, h)
    requires Tracks(node, k, h, Changes(again, k)) && EndsAt(node, k, h, Changes(again, k), end)
    requires NeverBelow(Changes(again, k))
    ensures Current(ApplyAll(node, Restarted(after), again), k) == node(k, end) - node(k, h)
  {
    StartsFrom(node, s, events, h, done, after, k);
    ImportIsReplay(node, Restarted(after), again, k);
    ReplayStaysOff(node, k, h, Changes(again, k), end);
  }

  ghost predicate NeverBelow(changes: seq<Change>) {
    Covered(0, changes, |changes|)
  }

  lemma ReplayStaysOff(node: Node, k: Key, h: nat, changes: seq<Change>, end: nat)
    requires Tracks(node, k, h, changes) && EndsAt(node, k, h, changes, end) && NeverBelow(changes)
    ensures Replay(node, k, 0, changes) == node(k, end) - node(k, h)
  {
    ReplayEnds(node, k, h, 0, -node(k, h), changes, end);
    StillOff(node(k, h), changes, |changes|);
  }

  /** From nothing, with `head` due: a repair fires at the i-th change. */
  predicate RepairAt(head: int, changes: seq<Change>, i: nat)
    requires i < |changes|
  {
    Due(head, changes, i + 1) + Error(head, -head, changes, i) < 0
  }

  ghost predicate Healed(head: int, changes: seq<Change>) {
    exists i: nat :: i < |changes| && RepairAt(head, changes, i) && Rest(changes, i) == 0
  }

  lemma {:induction false} ErrorFreeIff(head: int, changes: seq<Change>, n: nat)
    requires n <= |changes| && head != 0 && Covered(head, changes, n)
    ensures Error(head, -head, changes, n) == 0
       <==> exists i: nat :: i < n && RepairAt(head, changes, i) && Rest(changes, i) == 0
  {
    if n > 0 {
      ErrorFreeIff(head, changes, n - 1);
      assert Due(head, changes, n) >= 0;
      if Error(head, -head, changes, n) == 0 && Error(head, -head, changes, n - 1) != 0 {
        assert RepairAt(head, changes, n - 1) && Rest(changes, n - 1) == 0;
      }
    }
  }

  /** At most one change of the holder per block. */
  ghost predicate OncePerBlock(changes: seq<Change>) {
    forall i: nat :: i + 1 < |changes| ==> changes[i + 1].num != changes[i].num
  }

  /** Then a lost holder is healed exactly if its balance ever falls below that at the head. */
  lemma HealedIff(head: int, changes: seq<Change>)
    requires OncePerBlock(changes) && head > 0 && Covered(head, changes, |changes|)
    ensures Healed(head, changes) <==> !NeverBelow(changes)
  {
    if NeverBelow(changes) {
      StillOff(head, changes, |changes|);
      ErrorFreeIff(head, changes, |changes|);
    } else {
      var i: nat :| i <= |changes| && Due(0, changes, i) < 0;
      FallsBelow(head, changes, i);
    }
  }

  lemma {:induction false} FallsBelow(head: int, changes: seq<Change>, n: nat)
    requires OncePerBlock(changes) && n <= |changes| && Due(0, changes, n) < 0
    ensures Healed(head, changes)
  {
    if m: nat :| m < n && Due(0, changes, m) < 0 {
      FallsBelow(head, changes, m);
    } else {
      StillOff(head, changes, n - 1);
      assert Due(head, changes, n) - head == Due(0, changes, n);
      assert RepairAt(head, changes, n - 1);
      assert Rest(changes, n - 1) == 0;
    }
  }

  lemma {:induction false} StillOff(head: int, changes: seq<Change>, n: nat)
    requires n <= |changes| && Covered(0, changes, n)
    ensures Error(head, -head, changes, n) == -head
  {
    if n > 0 {
      StillOff(head, changes, n - 1);
      assert Due(0, changes, n) >= 0;
    }
  }

  /** NFT holdings come through all of it unchanged: the importer moves none, and no repair touches them. */
  lemma NftsComeThrough(node: Node, s: Balances, events: seq<(Event, nat)>, h: nat, done: set<Key>,
                        after: map<Key, Bal>, again: seq<(Event, nat)>, k: Key)
    requires DiedAndCleaned(node, s, events, h, done, after) && NftsSettled(s)
    ensures Nfts(ApplyAll(node, Restarted(after), again), k) == NftsIn(s.db, k)
  {
    ImportKeepsNfts(node, s, events);
    NftsAfterCleanUp(node, s, ApplyAll(node, s, events), h, done, after);
    ImportKeepsNfts(node, Restarted(after), again);
  }

  lemma NftsAfterCleanUp(node: Node, s: Balances, t: Balances, h: nat, done: set<Key>, after: map<Key, Bal>)
    requires s.bals == map[] && SameNfts(s, t) && NftsSettled(t) && done <= t.bals.Keys
    requires CleanedUp(node, SavedPart(t, done), after, h)
    ensures SameNfts(s, Restarted(after))
  {
  }
}
