/**
 Crashes of the NFT import. A save may die after any part of it; the next process deletes the records minted after
 the head and scans the same events again. ERC721 owners come out right however often that happens. ERC1155 amounts
 do so exactly for the holders whose saved record the crash has left as it was at the head.
 */
module NftRecovery {
  import opened Common
  import opened NftLedger
  import opened NftState

  // ---------------------------------------------------------------------------
  // The dying save and the cleanup
  // ---------------------------------------------------------------------------

  /** The part of the cache whose entries the save gets to. */
  function Part(s: State, done: set<Key>): State {
    s.(minted := map k | k in s.minted && k in done :: s.minted[k],
       updated := map k | k in s.updated && k in done :: s.updated[k])
  }

  /** The rows minted after the head are deleted. */
  function CleanUp(rows: map<Slot, Nft>, head: nat): map<Slot, Nft> {
    map slot | slot in rows && rows[slot].block <= head :: rows[slot]
  }

  /** What the next process starts from, when the save of `s` dies after the entries `done`. */
  ghost predicate Restarted(s: State, done: set<Key>, head: nat, rows: map<Slot, Nft>) {
    exists saved: map<Slot, Nft> :: Saved(Part(s, done), saved) && rows == CleanUp(saved, head)
  }

  function Fresh(rows: map<Slot, Nft>): State {
    State(map[], map[], rows)
  }

  lemma RestartedIsOk(erc721: set<Address>, s: State, done: set<Key>, head: nat, rows: map<Slot, Nft>)
    requires Inv(erc721, s) && Restarted(s, done, head, rows)
    ensures Inv(erc721, Fresh(rows)) && forall slot :: slot in rows ==> rows[slot].block <= head
  {
    var saved: map<Slot, Nft> :| Saved(Part(s, done), saved) && rows == CleanUp(saved, head);
    SaveKeepsView(erc721, Part(s, done), saved);
  }

  // ---------------------------------------------------------------------------
  // ERC721: a scan and its history
  // ---------------------------------------------------------------------------

  function ScanOne(s: State, op: Op): State {
    match op
    case MintOp(nft) => Mint721(s, nft)
    case TransferOp(from, to, _) => Transfer721(s, from.address, from.tokenId, from.owner, to).0
    case SaveOp => s
  }

  /** The scan of the first `i` events. */
  function Scan(s: State, ops: seq<Op>, i: nat): State
    requires i <= |ops|
  {
    if i == 0 then s else ScanOne(Scan(s, ops, i - 1), ops[i - 1])
  }

  /** The plain ledger after the first `i` events. */
  function After(erc721: set<Address>, l: Ledger, ops: seq<Op>, i: nat): Ledger
    requires i <= |ops|
  {
    if i == 0 then l else Play(erc721, After(erc721, l, ops, i - 1), ops[i - 1])
  }

  /** An event after the head, as the chain has it: tokens are minted once and moved by their owner. */
  predicate OnChain(erc721: set<Address>, l: Ledger, op: Op, head: nat) {
    match op
    case MintOp(nft) =>
      && NewRecord(erc721, nft) && nft.address in erc721 && nft.owner != ZERO_ADDRESS && nft.block > head
      && TokenOf(SlotOf(nft)) !in l.owners
    case TransferOp(from, _, _) =>
      && from.address in erc721 && from.owner != ZERO_ADDRESS
      && TokenOf(from) in l.owners && l.owners[TokenOf(from)] == from.owner
    case SaveOp => false
  }

  predicate OnChainAt(erc721: set<Address>, l: Ledger, ops: seq<Op>, i: nat, head: nat)
    requires i < |ops|
  {
    OnChain(erc721, After(erc721, l, ops, i), ops[i], head)
  }

  /** The events since the head, after the ledger `l` at it. */
  predicate History(erc721: set<Address>, l: Ledger, ops: seq<Op>, head: nat) {
    forall i :: 0 <= i < |ops| ==> OnChainAt(erc721, l, ops, i, head)
  }

  /** Records not minted in the window are of rows from before it. */
  ghost predicate Blocks(s: State, head: nat) {
    && (forall k :: k in s.minted && k.Key721? ==> s.minted[k].block > head)
    && (forall k :: k in s.updated && k.Key721? ==> s.updated[k].block <= head)
    && (forall slot :: slot in s.rows ==> s.rows[slot].block <= head)
  }

  lemma ScanOneKeeps(erc721: set<Address>, l: Ledger, s: State, op: Op, head: nat)
    requires Inv(erc721, s) && Blocks(s, head) && OnChain(erc721, l, op, head)
    ensures var t := ScanOne(s, op); Inv(erc721, t) && Blocks(t, head) && t.rows == s.rows
  {
    match op
    case MintOp(nft) => Mint721Refines(erc721, s, nft);
    case TransferOp(from, to, _) => Transfer721Exact(erc721, s, from, to);
  }

  lemma {:induction false} ScanKeeps(erc721: set<Address>, l: Ledger, s: State, ops: seq<Op>, i: nat, head: nat)
    requires i <= |ops| && Inv(erc721, s) && Blocks(s, head) && History(erc721, l, ops, head)
    ensures var t := Scan(s, ops, i); Inv(erc721, t) && Blocks(t, head) && t.rows == s.rows
  {
    if i > 0 {
      ScanKeeps(erc721, l, s, ops, i - 1, head);
      assert OnChainAt(erc721, l, ops, i - 1, head);
      ScanOneKeeps(erc721, After(erc721, l, ops, i - 1), Scan(s, ops, i - 1), ops[i - 1], head);
    }
  }

  // ---------------------------------------------------------------------------
  // One token in a scan that may have happened before
  // ---------------------------------------------------------------------------

  /** Whom the ledger names as the owner of the token. */
  predicate LedgerOwner(l: Ledger, slot: Slot) {
    TokenOf(slot) in l.owners && l.owners[TokenOf(slot)] == slot.owner
  }

  /** The cache and the ledger name the same owner. */
  ghost predicate InStep(s: State, l: Ledger, address: Address, tokenId: nat) {
    forall owner: Address {:trigger Slot(address, tokenId, owner)} ::
      owner != ZERO_ADDRESS ==>
        (Owns(s, Slot(address, tokenId, owner)) <==> LedgerOwner(l, Slot(address, tokenId, owner)))
  }

  /** No row of the token, or the row of the owner of the ledger `l`. */
  ghost predicate RowAt(rows: map<Slot, Nft>, l: Ledger, address: Address, tokenId: nat) {
    forall owner: Address {:trigger Slot(address, tokenId, owner)} ::
      owner != ZERO_ADDRESS ==>
        (Slot(address, tokenId, owner) in rows <==> LedgerOwner(l, Slot(address, tokenId, owner)))
  }

  /** Nothing of the token is cached, and its row is that of a later ledger. */
  ghost predicate Ahead(s: State, later: Ledger, address: Address, tokenId: nat) {
    var key := Key721(address, tokenId);
    key !in s.minted && key !in s.updated && RowAt(s.rows, later, address, tokenId)
  }

  /** The token is in step, or ahead; `l` is the ledger at the head, and `now` the one of the events scanned. */
  ghost predicate Tracks(s: State, l: Ledger, now: Ledger, later: Ledger, address: Address, tokenId: nat) {
    && ((address, tokenId) in l.owners ==> (address, tokenId) in now.owners)
    && (Key721(address, tokenId) in s.minted ==> (address, tokenId) in now.owners && (address, tokenId) !in l.owners)
    && (InStep(s, now, address, tokenId) || ((address, tokenId) in now.owners && Ahead(s, later, address, tokenId)))
  }

  lemma MintStep(erc721: set<Address>, s: State, l: Ledger, now: Ledger, later: Ledger, op: Op, head: nat,
                 address: Address, tokenId: nat)
    requires Inv(erc721, s) && OnChain(erc721, now, op, head) && address in erc721 && op.MintOp?
    requires !TokenStored(s.rows, address, tokenId) || (address, tokenId) in l.owners
    requires Tracks(s, l, now, later, address, tokenId)
    ensures var t, now' := ScanOne(s, op), Play(erc721, now, op);
            && (InStep(s, now, address, tokenId) ==> InStep(t, now', address, tokenId))
            && Tracks(t, l, now', later, address, tokenId)
  {
    Mint721Refines(erc721, s, op.nft);
  }

  lemma TransferInStep(erc721: set<Address>, s: State, now: Ledger, op: Op, head: nat, address: Address, tokenId: nat)
    requires Inv(erc721, s) && OnChain(erc721, now, op, head) && address in erc721 && op.TransferOp?
    requires InStep(s, now, address, tokenId)
    ensures InStep(ScanOne(s, op), Play(erc721, now, op), address, tokenId)
  {
    Transfer721Exact(erc721, s, op.from, op.to);
    assert LedgerOwner(now, op.from);
    if address == op.from.address && tokenId == op.from.tokenId {
      assert op.from == Slot(address, tokenId, op.from.owner);
    }
  }

  lemma TransferAhead(erc721: set<Address>, s: State, now: Ledger, later: Ledger, op: Op, head: nat, address: Address,
                      tokenId: nat)
    requires Inv(erc721, s) && OnChain(erc721, now, op, head) && address in erc721 && op.TransferOp?
    requires Ahead(s, later, address, tokenId)
    ensures var t := ScanOne(s, op);
            InStep(t, Play(erc721, now, op), address, tokenId) || Ahead(t, later, address, tokenId)
  {
    Transfer721Exact(erc721, s, op.from, op.to);
  }

  lemma TransferStep(erc721: set<Address>, s: State, l: Ledger, now: Ledger, later: Ledger, op: Op, head: nat,
                     address: Address, tokenId: nat)
    requires Inv(erc721, s) && OnChain(erc721, now, op, head) && address in erc721 && op.TransferOp?
    requires Tracks(s, l, now, later, address, tokenId)
    ensures var t, now' := ScanOne(s, op), Play(erc721, now, op);
            && (InStep(s, now, address, tokenId) ==> InStep(t, now', address, tokenId))
            && Tracks(t, l, now', later, address, tokenId)
  {
    if InStep(s, now, address, tokenId) {
      TransferInStep(erc721, s, now, op, head, address, tokenId);
    } else {
      TransferAhead(erc721, s, now, later, op, head, address, tokenId);
    }
  }

  /** One event: a token in step stays so. A token ahead waits until it is sent by the owner its row names. */
  lemma TokenStep(erc721: set<Address>, s: State, t: State, l: Ledger, now: Ledger, next: Ledger, later: Ledger, op: Op,
                  head: nat, address: Address, tokenId: nat)
    requires Inv(erc721, s) && OnChain(erc721, now, op, head) && address in erc721
    requires t == ScanOne(s, op) && next == Play(erc721, now, op)
    requires !TokenStored(s.rows, address, tokenId) || (address, tokenId) in l.owners
    requires Tracks(s, l, now, later, address, tokenId)
    ensures InStep(s, now, address, tokenId) ==> InStep(t, next, address, tokenId)
    ensures Tracks(t, l, next, later, address, tokenId)
  {
    if op.MintOp? {
      MintStep(erc721, s, l, now, later, op, head, address, tokenId);
    } else {
      TransferStep(erc721, s, l, now, later, op, head, address, tokenId);
    }
  }

  lemma CaughtUp(s: State, l: Ledger, now: Ledger, address: Address, tokenId: nat)
    requires Tracks(s, l, now, now, address, tokenId)
    ensures InStep(s, now, address, tokenId)
  {
  }

  /** The token's row is that of the ledger after the first `n` events, and an unknown token has none. */
  ghost predicate Lagging(erc721: set<Address>, l: Ledger, ops: seq<Op>, rows: map<Slot, Nft>, n: nat, address: Address,
                          tokenId: nat)
    requires n <= |ops|
  {
    if (address, tokenId) in l.owners then RowAt(rows, After(erc721, l, ops, n), address, tokenId)
    else !TokenStored(rows, address, tokenId)
  }

  lemma TokenStart(erc721: set<Address>, l: Ledger, ops: seq<Op>, rows: map<Slot, Nft>, n: nat, address: Address,
                   tokenId: nat)
    requires n <= |ops| && Lagging(erc721, l, ops, rows, n, address, tokenId)
    ensures Tracks(Fresh(rows), l, l, After(erc721, l, ops, n), address, tokenId)
    ensures (address, tokenId) in l.owners || !TokenStored(rows, address, tokenId)
  {
  }

  /** The i-th event of a scan, with the states and the ledgers before and after it. */
  ghost predicate ScanAt(erc721: set<Address>, head: nat, ops: seq<Op>, states: seq<State>, ledgers: seq<Ledger>,
                         i: nat)
    requires i < |ops| && |states| == |ledgers| == |ops| + 1
  {
    && Inv(erc721, states[i]) && states[i].rows == states[0].rows && OnChain(erc721, ledgers[i], ops[i], head)
    && states[i + 1] == ScanOne(states[i], ops[i]) && ledgers[i + 1] == Play(erc721, ledgers[i], ops[i])
  }

  lemma {:induction false} TokenRun(erc721: set<Address>, head: nat, ops: seq<Op>, states: seq<State>,
                                    ledgers: seq<Ledger>, n: nat, i: nat, address: Address, tokenId: nat)
    requires n <= |ops| && i <= |ops| && address in erc721 && |states| == |ledgers| == |ops| + 1
    requires forall k :: 0 <= k < |ops| ==> ScanAt(erc721, head, ops, states, ledgers, k)
    requires !TokenStored(states[0].rows, address, tokenId) || (address, tokenId) in ledgers[0].owners
    requires Tracks(states[0], ledgers[0], ledgers[0], ledgers[n], address, tokenId)
    ensures Tracks(states[i], ledgers[0], ledgers[i], ledgers[n], address, tokenId)
    ensures i >= n ==> InStep(states[i], ledgers[i], address, tokenId)
  {
    if i > 0 {
      TokenRun(erc721, head, ops, states, ledgers, n, i - 1, address, tokenId);
      assert ScanAt(erc721, head, ops, states, ledgers, i - 1);
      TokenStep(erc721, states[i - 1], states[i], ledgers[0], ledgers[i - 1], ledgers[i], ledgers[n], ops[i - 1], head,
                address, tokenId);
    }
    if i == n {
      CaughtUp(states[i], ledgers[0], ledgers[i], address, tokenId);
    }
  }

  /** A scan from a row that is `n` events ahead is in step from the n-th event on. */
  lemma TokenScan(erc721: set<Address>, l: Ledger, ops: seq<Op>, rows: map<Slot, Nft>, n: nat, i: nat, head: nat,
                  address: Address, tokenId: nat)
    requires n <= |ops| && i <= |ops| && address in erc721 && History(erc721, l, ops, head)
    requires Inv(erc721, Fresh(rows)) && Blocks(Fresh(rows), head) && Lagging(erc721, l, ops, rows, n, address, tokenId)
    ensures var s, now := Scan(Fresh(rows), ops, i), After(erc721, l, ops, i);
            && Tracks(s, l, now, After(erc721, l, ops, n), address, tokenId)
            && (i >= n ==> InStep(s, now, address, tokenId))
  {
    var states := seq(|ops| + 1, k requires 0 <= k <= |ops| => Scan(Fresh(rows), ops, k));
    var ledgers := seq(|ops| + 1, k requires 0 <= k <= |ops| => After(erc721, l, ops, k));
    TokenStart(erc721, l, ops, rows, n, address, tokenId);
    forall k | 0 <= k < |ops|
      ensures ScanAt(erc721, head, ops, states, ledgers, k)
    {
      ScanKeeps(erc721, l, Fresh(rows), ops, k, head);
      assert OnChainAt(erc721, l, ops, k, head);
    }
    TokenRun(erc721, head, ops, states, ledgers, n, i, address, tokenId);
  }

  /** The row of a token after the crash: minted ones are gone, and saved ones have their new owner. */
  predicate RowAfter(s: State, done: set<Key>, rows: map<Slot, Nft>, slot: Slot) {
    var key := Key721(slot.address, slot.tokenId);
    slot in rows <==>
      if key in s.updated && key in done then s.updated[key].owner == slot.owner && slot.owner != ZERO_ADDRESS
      else slot in s.rows
  }

  lemma RestartedToken(erc721: set<Address>, s: State, done: set<Key>, head: nat, rows: map<Slot, Nft>, slot: Slot)
    requires Inv(erc721, s) && Blocks(s, head) && Restarted(s, done, head, rows) && slot.address in erc721
    ensures RowAfter(s, done, rows, slot)
  {
    var saved: map<Slot, Nft> :| Saved(Part(s, done), saved) && rows == CleanUp(saved, head);
    var part, key := Part(s, done), Key721(slot.address, slot.tokenId);
    SavedTokenRow(erc721, part, saved, slot);
  }

  // ---------------------------------------------------------------------------
  // ERC721: any number of crashes
  // ---------------------------------------------------------------------------

  ghost predicate Behind(erc721: set<Address>, l: Ledger, ops: seq<Op>, rows: map<Slot, Nft>, m: nat, address: Address,
                         tokenId: nat)
    requires m <= |ops|
  {
    exists n: nat :: n <= m && Lagging(erc721, l, ops, rows, n, address, tokenId)
  }

  /** Every token's row is that of some moment in the first `m` events since the head. */
  ghost predicate Recoverable(erc721: set<Address>, l: Ledger, ops: seq<Op>, head: nat, rows: map<Slot, Nft>, m: nat)
    requires m <= |ops|
  {
    && Inv(erc721, Fresh(rows)) && Blocks(Fresh(rows), head)
    && forall address, tokenId :: address in erc721 ==> Behind(erc721, l, ops, rows, m, address, tokenId)
  }

  lemma TokenRestarts(erc721: set<Address>, l: Ledger, ops: seq<Op>, head: nat, rows: map<Slot, Nft>, m: nat,
                      scanned: nat, done: set<Key>, rows': map<Slot, Nft>, address: Address, tokenId: nat)
    requires m <= scanned <= |ops| && History(erc721, l, ops, head) && address in erc721
    requires Recoverable(erc721, l, ops, head, rows, m)
    requires Restarted(Scan(Fresh(rows), ops, scanned), done, head, rows')
    ensures Behind(erc721, l, ops, rows', scanned, address, tokenId)
  {
    assert Behind(erc721, l, ops, rows, m, address, tokenId);
    var n: nat :| n <= m && Lagging(erc721, l, ops, rows, n, address, tokenId);
    var s := Scan(Fresh(rows), ops, scanned);
    TokenScan(erc721, l, ops, rows, n, scanned, head, address, tokenId);
    ScanKeeps(erc721, l, Fresh(rows), ops, scanned, head);
    forall owner: Address
      ensures RowAfter(s, done, rows', Slot(address, tokenId, owner))
    {
      RestartedToken(erc721, s, done, head, rows', Slot(address, tokenId, owner));
    }
    var key := Key721(address, tokenId);
    RestartedLags(erc721, l, ops, s, done, rows', if key in s.updated && key in done then scanned else n, n, scanned,
                  address, tokenId);
  }

  lemma RestartedLags(erc721: set<Address>, l: Ledger, ops: seq<Op>, s: State, done: set<Key>, rows: map<Slot, Nft>,
                      n: nat, before: nat, scanned: nat, address: Address, tokenId: nat)
    requires before <= scanned <= |ops| && address in erc721 && Inv(erc721, s)
    requires Lagging(erc721, l, ops, s.rows, before, address, tokenId)
    requires InStep(s, After(erc721, l, ops, scanned), address, tokenId)
    requires Key721(address, tokenId) in s.minted ==> (address, tokenId) !in l.owners
    requires forall owner: Address {:trigger Slot(address, tokenId, owner)} ::
               RowAfter(s, done, rows, Slot(address, tokenId, owner))
    requires n == if Key721(address, tokenId) in s.updated && Key721(address, tokenId) in done then scanned else before
    ensures Lagging(erc721, l, ops, rows, n, address, tokenId)
  {
  }

  lemma AttemptKeepsRecoverable(erc721: set<Address>, l: Ledger, ops: seq<Op>, head: nat, rows: map<Slot, Nft>, m: nat,
                                scanned: nat, done: set<Key>, rows': map<Slot, Nft>)
    requires m <= scanned <= |ops| && History(erc721, l, ops, head) && Recoverable(erc721, l, ops, head, rows, m)
    requires Restarted(Scan(Fresh(rows), ops, scanned), done, head, rows')
    ensures Recoverable(erc721, l, ops, head, rows', scanned)
  {
    ScanKeeps(erc721, l, Fresh(rows), ops, scanned, head);
    RestartedIsOk(erc721, Scan(Fresh(rows), ops, scanned), done, head, rows');
    forall address, tokenId | address in erc721
      ensures Behind(erc721, l, ops, rows', scanned, address, tokenId)
    {
      TokenRestarts(erc721, l, ops, head, rows, m, scanned, done, rows', address, tokenId);
    }
  }

  /** One process: it scans the first events after the head, and its save dies after the entries `done`. */
  datatype Attempt = Attempt(scanned: nat, done: set<Key>)

  /** How far the process before the i-th one has scanned. */
  function ScannedBefore(attempts: seq<Attempt>, i: nat): nat
    requires i <= |attempts|
  {
    if i == 0 then 0 else attempts[i - 1].scanned
  }

  ghost predicate AttemptAt(ops: seq<Op>, head: nat, attempts: seq<Attempt>, tables: seq<map<Slot, Nft>>, i: nat)
    requires i < |attempts| && |tables| == |attempts| + 1
  {
    && ScannedBefore(attempts, i) <= attempts[i].scanned <= |ops|
    && Restarted(Scan(Fresh(tables[i]), ops, attempts[i].scanned), attempts[i].done, head, tables[i + 1])
  }

  /** Processes one after another; the chain, and with it the window, never gets shorter. */
  ghost predicate IsRecovery(ops: seq<Op>, head: nat, attempts: seq<Attempt>, tables: seq<map<Slot, Nft>>) {
    && |tables| == |attempts| + 1
    && forall i :: 0 <= i < |attempts| ==> AttemptAt(ops, head, attempts, tables, i)
  }

  lemma {:induction false} RecoveryKeepsRecoverable(erc721: set<Address>, l: Ledger, ops: seq<Op>, head: nat,
                                                    attempts: seq<Attempt>, tables: seq<map<Slot, Nft>>, i: nat)
    requires IsRecovery(ops, head, attempts, tables) && i <= |attempts| && History(erc721, l, ops, head)
    requires Recoverable(erc721, l, ops, head, tables[0], 0)
    ensures ScannedBefore(attempts, i) <= |ops|
            && Recoverable(erc721, l, ops, head, tables[i], ScannedBefore(attempts, i))
  {
    if i > 0 {
      RecoveryKeepsRecoverable(erc721, l, ops, head, attempts, tables, i - 1);
      assert AttemptAt(ops, head, attempts, tables, i - 1);
      AttemptKeepsRecoverable(erc721, l, ops, head, tables[i - 1], ScannedBefore(attempts, i - 1),
                              attempts[i - 1].scanned, attempts[i - 1].done, tables[i]);
    }
  }

  /** A table at rest: right at the head, with every row minted up to it. */
  ghost predicate AtRest(erc721: set<Address>, l: Ledger, head: nat, rows: map<Slot, Nft>) {
    && Inv(erc721, Fresh(rows)) && (forall slot :: slot in rows ==> rows[slot].block <= head)
    && (forall slot: Slot :: slot.address in erc721 && slot in rows ==> TokenOf(slot) in l.owners)
    && (forall slot: Slot :: slot.address in erc721 && slot.owner != ZERO_ADDRESS ==>
          (slot in rows <==> LedgerOwner(l, slot)))
  }

  lemma RestIsRecoverable(erc721: set<Address>, l: Ledger, ops: seq<Op>, head: nat, rows: map<Slot, Nft>)
    requires AtRest(erc721, l, head, rows)
    ensures Recoverable(erc721, l, ops, head, rows, 0)
  {
    forall address, tokenId | address in erc721
      ensures Behind(erc721, l, ops, rows, 0, address, tokenId)
    {
      if TokenStored(rows, address, tokenId) {
        var slot :| slot in rows && slot.address == address && slot.tokenId == tokenId;
        assert TokenOf(slot) in l.owners;
      }
      assert Lagging(erc721, l, ops, rows, 0, address, tokenId);
    }
  }

  /** Tokens recover: from a table at rest, after any number of processes that die in any part of their save, the
      first complete window leaves every token with the owner the chain gives it. */
  lemma TokensRecover(erc721: set<Address>, l: Ledger, ops: seq<Op>, head: nat, attempts: seq<Attempt>,
                      tables: seq<map<Slot, Nft>>, saved: map<Slot, Nft>)
    requires IsRecovery(ops, head, attempts, tables)
    requires History(erc721, l, ops, head) && AtRest(erc721, l, head, tables[0])
    requires Saved(Scan(Fresh(tables[|attempts|]), ops, |ops|), saved)
    ensures forall slot: Slot :: slot.address in erc721 && slot.owner != ZERO_ADDRESS ==>
              (slot in saved <==> LedgerOwner(After(erc721, l, ops, |ops|), slot))
  {
    var rows, m := tables[|attempts|], ScannedBefore(attempts, |attempts|);
    RestIsRecoverable(erc721, l, ops, head, tables[0]);
    RecoveryKeepsRecoverable(erc721, l, ops, head, attempts, tables, |attempts|);
    ScanKeeps(erc721, l, Fresh(rows), ops, |ops|, head);
    SaveKeepsView(erc721, Scan(Fresh(rows), ops, |ops|), saved);
    forall slot: Slot | slot.address in erc721 && slot.owner != ZERO_ADDRESS
      ensures slot in saved <==> LedgerOwner(After(erc721, l, ops, |ops|), slot)
    {
      assert Behind(erc721, l, ops, rows, m, slot.address, slot.tokenId);
      var n: nat :| n <= m && Lagging(erc721, l, ops, rows, n, slot.address, slot.tokenId);
      TokenScan(erc721, l, ops, rows, n, |ops|, head, slot.address, slot.tokenId);
      assert slot == Slot(slot.address, slot.tokenId, slot.owner);
      assert Owns(Fresh(saved), slot) <==> slot in saved;
    }
  }

  // ---------------------------------------------------------------------------
  // ERC1155: amounts after a crash
  // ---------------------------------------------------------------------------

  function AmountIn(rows: map<Slot, Nft>, slot: Slot): int {
    if slot in rows then rows[slot].value else 0
  }

  /** The crash and the cleanup leave what the table had for the holder: its record was not saved, or was minted after
      the head and is deleted again, or was saved with nothing changed. A record that a transfer has copied from an
      old one keeps the old block, and stays. */
  predicate LeftAsItWas(s: State, done: set<Key>, head: nat, holder: Slot) {
    var key := Key1155(holder.address, holder.tokenId, holder.owner);
    key in done ==>
      && (key in s.minted ==> s.minted[key].block > head || s.minted[key].value == 0)
      && (key in s.updated ==> holder in s.rows && s.updated[key].value == s.rows[holder].value)
  }

  /** A document keeps the block of its row. */
  ghost predicate HomeBlocks(s: State) {
    forall k :: k in s.updated && k.Key1155? && s.updated[k].home.Some? && s.updated[k].home.value in s.rows ==>
      s.updated[k].block == s.rows[s.updated[k].home.value].block
  }

  lemma RestartedHolding(erc721: set<Address>, s: State, done: set<Key>, head: nat, rows: map<Slot, Nft>, holder: Slot)
    requires Inv(erc721, s) && HomeBlocks(s) && Restarted(s, done, head, rows)
    requires forall slot :: slot in s.rows ==> s.rows[slot].block <= head
    requires holder.address !in erc721 && holder.owner != ZERO_ADDRESS
    ensures AmountIn(rows, holder) == AmountIn(s.rows, holder) <==> LeftAsItWas(s, done, head, holder)
  {
    var saved: map<Slot, Nft> :| Saved(Part(s, done), saved) && rows == CleanUp(saved, head);
    var key := Key1155(holder.address, holder.tokenId, holder.owner);
    SavedHolding(erc721, Part(s, done), saved, holder);
    EntriesOf(erc721, s, holder);
  }

  lemma CreditKeepsHomeBlocks(erc721: set<Address>, s: State, template: Nft, to: Slot, value: int)
    requires Inv(erc721, s) && HomeBlocks(s)
    ensures var t := Credit(s, template, to, value); t.rows == s.rows && HomeBlocks(t)
  {
  }

  lemma TransferKeepsHomeBlocks(erc721: set<Address>, s: State, from: Slot, to: Address, value: int)
    requires Inv(erc721, s) && HomeBlocks(s)
    ensures var t := Transfer1155(s, from, to, value).0; t.rows == s.rows && HomeBlocks(t)
  {
    if Exists(s, from) {
      CreditKeepsHomeBlocks(erc721, s, Document(s, from), from.(owner := to), value);
    }
  }

  lemma EventKeepsHomeBlocks(erc721: set<Address>, s: State, op: Op, t: State)
    requires Inv(erc721, s) && HomeBlocks(s) && StepOp(erc721, s, op, t) && !op.SaveOp?
    ensures t.rows == s.rows && HomeBlocks(t)
  {
    if op.TransferOp? && op.from.address !in erc721 {
      TransferKeepsHomeBlocks(erc721, s, op.from, op.to, op.value);
    }
  }

  lemma {:induction false} WindowKeepsHomeBlocks(erc721: set<Address>, l: Ledger, ops: seq<Op>, states: seq<State>,
                                                 i: nat)
    requires IsRun(erc721, l, ops, states) && i <= |ops| && (forall j :: 0 <= j < |ops| ==> !ops[j].SaveOp?)
    requires HomeBlocks(states[0])
    ensures states[i].rows == states[0].rows && HomeBlocks(states[i])
  {
    if i > 0 {
      WindowKeepsHomeBlocks(erc721, l, ops, states, i - 1);
      RunAgrees(erc721, l, ops, states, i - 1);
      EventKeepsHomeBlocks(erc721, states[i - 1], ops[i - 1], states[i]);
    }
  }

  lemma PlayShift(erc721: set<Address>, l: Ledger, l': Ledger, op: Op, holder: Slot)
    requires holder.address !in erc721
    ensures Holding(Play(erc721, l', op), holder) - Holding(l', holder)
         == Holding(Play(erc721, l, op), holder) - Holding(l, holder)
  {
  }

  /** The same events add the same to any ledger. */
  lemma {:induction false} PlayAllShift(erc721: set<Address>, l: Ledger, l': Ledger, ops: seq<Op>, holder: Slot)
    requires holder.address !in erc721
    ensures Holding(PlayAll(erc721, l', ops), holder) - Holding(l', holder)
         == Holding(PlayAll(erc721, l, ops), holder) - Holding(l, holder)
  {
    if ops != [] {
      var front := ops[..|ops| - 1];
      PlayAllShift(erc721, l, l', front, holder);
      PlayShift(erc721, PlayAll(erc721, l, front), PlayAll(erc721, l', front), ops[|ops| - 1], holder);
    }
  }

  /** A scan that agrees with the ledger of its own table adds what the same events add to any other ledger. */
  lemma ScanAdds(erc721: set<Address>, l: Ledger, l': Ledger, ops: seq<Op>, states: seq<State>, holder: Slot)
    requires IsRun(erc721, l', ops, states) && states[0] == Fresh(states[0].rows)
    requires holder.address !in erc721 && holder.owner != ZERO_ADDRESS
    ensures Held(states[|ops|], holder) - AmountIn(states[0].rows, holder)
         == Holding(PlayAll(erc721, l, ops), holder) - Holding(l, holder)
  {
    RunAgrees(erc721, l', ops, states, |ops|);
    assert ops[..|ops|] == ops;
    PlayAllShift(erc721, l, l', ops, holder);
    assert Held(states[0], holder) == Holding(l', holder);
  }

  /** Amounts recover or not: a window whose save dies, the cleanup, and a second scan. Where both scans agree with
      the plain ledger, each from its own table, the holder ends with the chain's amount exactly if the crash has left
      the holder's row as it was. */
  lemma AmountsRecoverIff(erc721: set<Address>, l: Ledger, ops: seq<Op>, states: seq<State>, done: set<Key>, head: nat,
                          l': Ledger, ops': seq<Op>, states': seq<State>, holder: Slot)
    requires IsRun(erc721, l, ops, states) && (forall i :: 0 <= i < |ops| ==> !ops[i].SaveOp?)
    requires states[0] == Fresh(states[0].rows)
    requires forall slot :: slot in states[0].rows ==> states[0].rows[slot].block <= head
    requires IsRun(erc721, l', ops', states') && states'[0] == Fresh(states'[0].rows)
    requires Restarted(states[|ops|], done, head, states'[0].rows)
    requires holder.address !in erc721 && holder.owner != ZERO_ADDRESS
    ensures Held(states'[|ops'|], holder) == Holding(PlayAll(erc721, l, ops'), holder)
       <==> LeftAsItWas(states[|ops|], done, head, holder)
  {
    WindowKeepsHomeBlocks(erc721, l, ops, states, |ops|);
    RunAgrees(erc721, l, ops, states, |ops|);
    RestartedHolding(erc721, states[|ops|], done, head, states'[0].rows, holder);
    ScanAdds(erc721, l, l', ops', states', holder);
    assert Held(states[0], holder) == AmountIn(states[0].rows, holder);
  }

  /** The record of a recipient, copied from an old one, survives the cleanup, and the second scan credits it again:
      one holder has five, and sends two to another. */
  lemma CreditedTwice()
    ensures var from, to := Slot(7, 1, 2), Slot(7, 1, 3);
            var rows := map[from := Nft(ERC1155, 7, 1, 10, 2, 5, Some(from))];
            var s := Transfer1155(Fresh(rows), from, to.owner, 2).0;
            var rows' := rows[to := Nft(ERC1155, 7, 1, 10, 3, 2, Some(to))];
            && Restarted(s, {Key1155(7, 1, 3)}, 10, rows')
            && var again := Transfer1155(Fresh(rows'), from, to.owner, 2).0;
               Held(again, from) == 3 && Held(again, to) == 4
  {
    var from, to := Slot(7, 1, 2), Slot(7, 1, 3);
    var rows := map[from := Nft(ERC1155, 7, 1, 10, 2, 5, Some(from))];
    var s := Transfer1155(Fresh(rows), from, to.owner, 2).0;
    var rows' := rows[to := Nft(ERC1155, 7, 1, 10, 3, 2, Some(to))];
    var part := Part(s, {Key1155(7, 1, 3)});
    assert Key1155(7, 1, 3) in part.minted && part.minted[Key1155(7, 1, 3)] == Nft(ERC1155, 7, 1, 10, 3, 2, None);
    assert part.updated == map[];
    assert Saved(part, rows');
    assert CleanUp(rows', 10) == rows';
  }
}
