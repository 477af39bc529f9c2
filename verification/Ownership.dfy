/**
 The replay of ownership events: contract owners follow the OwnershipTransferred events of a window of blocks,
 and a window whose scan dies is scanned again from its start.
 */
module Ownership {
  import opened Common

  /** One log with the event's signature; the owners are absent when the log does not decode. */
  datatype Event = Event(contract: Address, owners: Option<(Address, Address)>)

  /** A known contract has an entry; its owner may still be unknown. */
  type Contracts = map<Address, Option<Address>>

  // ---------------------------------------------------------------------------
  // One contract
  // ---------------------------------------------------------------------------

  /** A transfer is followed if the owner is unknown or is the transfer's previous owner. */
  function Follow(owner: Option<Address>, transfer: (Address, Address)): Option<Address> {
    if owner == None || owner == Some(transfer.0) then Some(transfer.1) else owner
  }

  function Replay(owner: Option<Address>, transfers: seq<(Address, Address)>): Option<Address>
    decreases transfers
  {
    if transfers == [] then owner else Replay(Follow(owner, transfers[0]), transfers[1..])
  }

  /** Every transfer starts from the owner the one before it named, as EIP-173 events of one contract do. */
  ghost predicate Chained(transfers: seq<(Address, Address)>) {
    forall i: nat {:trigger transfers[i]} :: i + 1 < |transfers| ==> transfers[i].1 == transfers[i + 1].0
  }

  /** The owner is unknown or one of the chain's owners. */
  ghost predicate OnChain(owner: Option<Address>, transfers: seq<(Address, Address)>) {
    owner == None
    || exists i: nat :: i < |transfers| && (owner == Some(transfers[i].0) || owner == Some(transfers[i].1))
  }

  function Last(transfers: seq<(Address, Address)>): Option<Address>
    requires transfers != []
  {
    Some(transfers[|transfers| - 1].1)
  }

  lemma {:induction false} ReplayAppend(owner: Option<Address>, a: seq<(Address, Address)>, b: seq<(Address, Address)>)
    ensures Replay(owner, a + b) == Replay(Replay(owner, a), b)
    decreases a
  {
    if a == [] {
      assert a + b == b;
    } else {
      assert (a + b)[1..] == a[1..] + b;
      ReplayAppend(Follow(owner, a[0]), a[1..], b);
    }
  }

  lemma {:induction false} OffChainStays(owner: Option<Address>, transfers: seq<(Address, Address)>)
    requires !OnChain(owner, transfers)
    ensures Replay(owner, transfers) == owner
  {
    if transfers != [] {
      var rest := transfers[1..];
      assert Follow(owner, transfers[0]) == owner;
      forall i: nat | i < |rest|
        ensures owner != Some(rest[i].0) && owner != Some(rest[i].1)
      {
        assert rest[i] == transfers[i + 1];
      }
      OffChainStays(owner, rest);
    }
  }

  lemma {:induction false} OnChainEndsAtLast(owner: Option<Address>, transfers: seq<(Address, Address)>)
    requires Chained(transfers) && transfers != [] && OnChain(owner, transfers)
    ensures Replay(owner, transfers) == Last(transfers)
    decreases transfers
  {
    var rest, next := transfers[1..], Follow(owner, transfers[0]);
    if rest == [] {
      assert Replay(next, rest) == next;
    } else {
      assert transfers[0].1 == rest[0].0;
      assert Chained(rest) by {
        forall i: nat | i + 1 < |rest| ensures rest[i].1 == rest[i + 1].0 {
          assert rest[i] == transfers[i + 1];
        }
      }
      if next != Some(transfers[0].1) {
        var i: nat :| i < |transfers| && (owner == Some(transfers[i].0) || owner == Some(transfers[i].1));
        assert transfers[i] == rest[i - 1];
      }
      OnChainEndsAtLast(next, rest);
    }
  }

  /** A chained sequence ends at its last new owner exactly when it starts from an owner on the chain, or from none. */
  lemma ReplayEndsAtLastIff(owner: Option<Address>, transfers: seq<(Address, Address)>)
    requires Chained(transfers) && transfers != []
    ensures Replay(owner, transfers) == Last(transfers) <==> OnChain(owner, transfers)
    ensures !OnChain(owner, transfers) ==> Replay(owner, transfers) == owner
  {
    if OnChain(owner, transfers) {
      OnChainEndsAtLast(owner, transfers);
    } else {
      OffChainStays(owner, transfers);
      assert transfers[|transfers| - 1].1 == Last(transfers).value;
    }
  }

  /** Where scans of parts of a window leave the owner: where it was, or somewhere on the window's chain. */
  ghost predicate Astray(now: Option<Address>, before: Option<Address>, window: seq<(Address, Address)>) {
    now == before || (OnChain(now, window) && OnChain(before, window))
  }

  /** A scan that dies after any of the window's transfers leaves the owner astray at most. */
  lemma DyingScan(now: Option<Address>, before: Option<Address>, window: seq<(Address, Address)>, n: nat)
    requires Chained(window) && n <= |window| && Astray(now, before, window)
    ensures Astray(Replay(now, window[..n]), before, window)
  {
    var part := window[..n];
    if part == [] {
    } else if OnChain(now, part) {
      OnChainEndsAtLast(now, part);
      assert window[n - 1] == part[n - 1];
    } else {
      OffChainStays(now, part);
    }
  }

  /** A complete scan forgets it all. */
  lemma CompleteScan(now: Option<Address>, before: Option<Address>, window: seq<(Address, Address)>)
    requires Chained(window) && Astray(now, before, window)
    ensures Replay(now, window) == Replay(before, window)
  {
    if window != [] && now != before {
      OnChainEndsAtLast(now, window);
      OnChainEndsAtLast(before, window);
    }
  }

  /** Scanning a window twice is scanning it once. */
  lemma RescanIsIdempotent(owner: Option<Address>, window: seq<(Address, Address)>)
    requires Chained(window)
    ensures Replay(Replay(owner, window), window) == Replay(owner, window)
  {
    assert window[..|window|] == window;
    DyingScan(owner, owner, window, |window|);
    CompleteScan(Replay(owner, window), owner, window);
  }

  /** The first transfer from an owner. */
  ghost predicate LeavesAt(owner: Address, window: seq<(Address, Address)>, i: nat) {
    && i < |window| && window[i].0 == owner
    && forall j: nat :: j < i ==> window[j].0 != owner
  }

  /** An owner that no transfer of the window leaves, or that the transfers after its first departure lead back to. */
  ghost predicate ComesHome(owner: Address, window: seq<(Address, Address)>) {
    forall i: nat {:trigger window[i]} :: LeavesAt(owner, window, i) ==>
      Replay(Some(window[i].1), window[i + 1..]) == Some(owner)
  }

  /** Up to its first departure an owner stays. */
  lemma {:induction false} ReplayFromDeparture(owner: Address, window: seq<(Address, Address)>, i: nat)
    requires LeavesAt(owner, window, i)
    ensures Replay(Some(owner), window) == Replay(Some(window[i].1), window[i + 1..])
    decreases i
  {
    if i > 0 {
      var rest := window[1..];
      assert window[0].0 != owner;
      assert rest[i - 1] == window[i] && rest[i..] == window[i + 1..];
      forall j: nat | j < i - 1
        ensures rest[j].0 != owner
      {
        assert rest[j] == window[j + 1];
      }
      ReplayFromDeparture(owner, rest, i - 1);
    }
  }

  lemma {:induction false} NeverLeft(owner: Address, window: seq<(Address, Address)>)
    requires forall j: nat :: j < |window| ==> window[j].0 != owner
    ensures Replay(Some(owner), window) == Some(owner)
  {
    if window != [] {
      var rest := window[1..];
      forall j: nat | j < |rest|
        ensures rest[j].0 != owner
      {
        assert rest[j] == window[j + 1];
      }
      assert window[0].0 != owner;
      NeverLeft(owner, rest);
    }
  }

  lemma FirstDeparture(owner: Address, window: seq<(Address, Address)>, n: nat) returns (i: nat)
    requires n < |window| && window[n].0 == owner
    ensures LeavesAt(owner, window, i)
  {
    if j: nat :| j < n && window[j].0 == owner {
      i := FirstDeparture(owner, window, j);
    } else {
      i := n;
    }
  }

  lemma StaysIff(owner: Address, window: seq<(Address, Address)>)
    ensures Replay(Some(owner), window) == Some(owner) <==> ComesHome(owner, window)
  {
    if n: nat :| n < |window| && window[n].0 == owner {
      var i := FirstDeparture(owner, window, n);
      ReplayFromDeparture(owner, window, i);
      forall k: nat | LeavesAt(owner, window, k)
        ensures k == i
      {
      }
    } else {
      NeverLeft(owner, window);
    }
  }

  /** For any window, chained or not: scanning it twice is scanning it once exactly if its final owner comes home. */
  lemma RescanIff(owner: Option<Address>, window: seq<(Address, Address)>)
    ensures var final := Replay(owner, window);
            Replay(final, window) == final <==> final == None || ComesHome(final.value, window)
  {
    var final := Replay(owner, window);
    if final == None {
      OnlyNothingKeepsNone(owner, window);
    } else {
      StaysIff(final.value, window);
    }
  }

  lemma {:induction false} OnlyNothingKeepsNone(owner: Option<Address>, window: seq<(Address, Address)>)
    requires Replay(owner, window) == None
    ensures window == []
    decreases window
  {
    if window != [] {
      OnlyNothingKeepsNone(Follow(owner, window[0]), window[1..]);
    }
  }

  /** Not so for a broken chain. */
  lemma BrokenChainIsNotIdempotent()
    ensures var window := [(1, 2), (3, 1)];
            Replay(Some(3), window) == Some(1) && Replay(Some(1), window) == Some(2)
  {
    assert [(1, 2), (3, 1)][1..] == [(3, 1)];
    assert [(3, 1)][1..] == [];
  }

  // ---------------------------------------------------------------------------
  // All contracts
  // ---------------------------------------------------------------------------

  function ScanOne(contracts: Contracts, e: Event): Contracts {
    if e.owners.Some? && e.contract in contracts
    then contracts[e.contract := Follow(contracts[e.contract], e.owners.value)]
    else contracts
  }

  function Scan(contracts: Contracts, events: seq<Event>): Contracts {
    if events == [] then contracts
    else ScanOne(Scan(contracts, events[..|events| - 1]), events[|events| - 1])
  }

  /** The transfers of one contract. */
  function Of(events: seq<Event>, contract: Address): seq<(Address, Address)> {
    if events == [] then []
    else
      var front, e := Of(events[..|events| - 1], contract), events[|events| - 1];
      if e.contract == contract && e.owners.Some? then front + [e.owners.value] else front
  }

  class NftCMD {
    /** The contract table's owner column. */
    var contracts: Contracts

    method ScanEIP173InRange(events: seq<Event>)
      modifies this
      ensures contracts == Scan(old(contracts), events)
    {
      assert events[..0] == [];
      for i := 0 to |events|
        invariant contracts == Scan(old(contracts), events[..i])
      {
        assert events[..i + 1][..i] == events[..i];
        var evt := events[i];
        if evt.owners.Some? {
          var (previousOwner, newOwner) := evt.owners.value;
          if evt.contract in contracts {
            var owner := contracts[evt.contract];
            if owner == None || owner == Some(previousOwner) {
              contracts := contracts[evt.contract := Some(newOwner)];
            }
          }
        }
      }
      assert events[..|events|] == events;
    }
  }

  /** Contracts are replayed independently of each other. */
  lemma {:induction false} ScanReplays(contracts: Contracts, events: seq<Event>, contract: Address)
    ensures Scan(contracts, events).Keys == contracts.Keys
    ensures contract in contracts ==>
              Scan(contracts, events)[contract] == Replay(contracts[contract], Of(events, contract))
  {
    if events != [] {
      var front, e := events[..|events| - 1], events[|events| - 1];
      ScanReplays(contracts, front, contract);
      if e.owners.Some? && e.contract in contracts {
        ScanReplays(contracts, front, e.contract);
        if e.contract == contract {
          ReplayAppend(contracts[contract], Of(front, contract), [e.owners.value]);
        }
      }
    }
  }

  /** All contracts: a window may be scanned again exactly if every final owner comes home. */
  lemma RescanTableIff(contracts: Contracts, events: seq<Event>)
    ensures var once := Scan(contracts, events);
            Scan(once, events) == once <==>
              forall a :: a in once && once[a].Some? ==> ComesHome(once[a].value, Of(events, a))
  {
    var once := Scan(contracts, events);
    var twice := Scan(once, events);
    forall a
      ensures once.Keys == contracts.Keys && twice.Keys == once.Keys
      ensures a in once ==> (twice[a] == once[a] <==> once[a] == None || ComesHome(once[a].value, Of(events, a)))
    {
      ScanReplays(contracts, events, a);
      ScanReplays(once, events, a);
      if a in once {
        RescanIff(contracts[a], Of(events, a));
      }
    }
    assert once.Keys == twice.Keys by {
      ScanReplays(once, events, 0);
    }
  }

  lemma {:induction false} OfPrefix(events: seq<Event>, n: nat, contract: Address)
    requires n <= |events|
    ensures |Of(events[..n], contract)| <= |Of(events, contract)|
    ensures Of(events, contract)[..|Of(events[..n], contract)|] == Of(events[..n], contract)
  {
    if n == |events| {
      assert events[..n] == events;
    } else {
      var front := events[..|events| - 1];
      assert front[..n] == events[..n];
      OfPrefix(front, n, contract);
    }
  }

  lemma {:induction false} OfAppend(a: seq<Event>, b: seq<Event>, contract: Address)
    ensures Of(a + b, contract) == Of(a, contract) + Of(b, contract)
  {
    if b == [] {
      assert a + b == a;
    } else {
      var front := b[..|b| - 1];
      assert (a + b)[..|a + b| - 1] == a + front;
      OfAppend(a, front, contract);
    }
  }

  // ---------------------------------------------------------------------------
  // Whole runs
  // ---------------------------------------------------------------------------

  /** One window of the loop: the scans that died after so many events each, and the one that did not. */
  datatype Window = Window(events: seq<Event>, deaths: seq<nat>)

  function DyingScans(contracts: Contracts, events: seq<Event>, deaths: seq<nat>): Contracts {
    if deaths == [] then contracts
    else Scan(DyingScans(contracts, events, deaths[..|deaths| - 1]), Prefix(events, deaths[|deaths| - 1]))
  }

  function Prefix(events: seq<Event>, n: nat): seq<Event> {
    if n <= |events| then events[..n] else events
  }

  function Run(contracts: Contracts, windows: seq<Window>): Contracts {
    if windows == [] then contracts
    else
      var w := windows[|windows| - 1];
      Scan(DyingScans(Run(contracts, windows[..|windows| - 1]), w.events, w.deaths), w.events)
  }

  function Events(windows: seq<Window>): seq<Event> {
    if windows == [] then [] else Events(windows[..|windows| - 1]) + windows[|windows| - 1].events
  }

  lemma {:induction false} DyingScansGoAstray(
      contracts: Contracts, events: seq<Event>, deaths: seq<nat>, contract: Address)
    requires contract in contracts && Chained(Of(events, contract))
    ensures DyingScans(contracts, events, deaths).Keys == contracts.Keys
    ensures Astray(DyingScans(contracts, events, deaths)[contract], contracts[contract], Of(events, contract))
  {
    if deaths != [] {
      var before := DyingScans(contracts, events, deaths[..|deaths| - 1]);
      var part := Prefix(events, deaths[|deaths| - 1]);
      DyingScansGoAstray(contracts, events, deaths[..|deaths| - 1], contract);
      assert part == events[..|part|];
      OfPrefix(events, |part|, contract);
      ScanReplays(before, part, contract);
      DyingScan(before[contract], contracts[contract], Of(events, contract), |Of(part, contract)|);
    }
  }

  /** A window with any number of dying scans ends as one undisturbed scan. */
  lemma WindowForgetsDeaths(contracts: Contracts, events: seq<Event>, deaths: seq<nat>, contract: Address)
    requires contract in contracts && Chained(Of(events, contract))
    ensures Scan(DyingScans(contracts, events, deaths), events).Keys == contracts.Keys
    ensures Scan(DyingScans(contracts, events, deaths), events)[contract]
         == Replay(contracts[contract], Of(events, contract))
  {
    var now := DyingScans(contracts, events, deaths);
    DyingScansGoAstray(contracts, events, deaths, contract);
    ScanReplays(now, events, contract);
    CompleteScan(now[contract], contracts[contract], Of(events, contract));
  }

  lemma ChainedParts(a: seq<(Address, Address)>, b: seq<(Address, Address)>)
    requires Chained(a + b)
    ensures Chained(a) && Chained(b)
  {
    forall i: nat | i + 1 < |a|
      ensures a[i].1 == a[i + 1].0
    {
      assert (a + b)[i] == a[i];
    }
    forall i: nat | i + 1 < |b|
      ensures b[i].1 == b[i + 1].0
    {
      assert (a + b)[|a| + i] == b[i];
    }
  }

  /** However the history is cut into windows, and wherever scans die, every owner is what one replay of the history
      gives. */
  lemma {:induction false} RunReplaysHistory(contracts: Contracts, windows: seq<Window>, contract: Address)
    requires contract in contracts && Chained(Of(Events(windows), contract))
    ensures Run(contracts, windows).Keys == contracts.Keys
    ensures Run(contracts, windows)[contract] == Replay(contracts[contract], Of(Events(windows), contract))
  {
    if windows != [] {
      var front, w := windows[..|windows| - 1], windows[|windows| - 1];
      OfAppend(Events(front), w.events, contract);
      ChainedParts(Of(Events(front), contract), Of(w.events, contract));
      RunReplaysHistory(contracts, front, contract);
      WindowForgetsDeaths(Run(contracts, front), w.events, w.deaths, contract);
      ReplayAppend(contracts[contract], Of(Events(front), contract), Of(w.events, contract));
    }
  }

  /** So a contract whose owner starts on its chain, or unknown, ends with the owner the chain ends with. */
  lemma RunEndsAtLastOwner(contracts: Contracts, windows: seq<Window>, contract: Address)
    requires contract in contracts && Chained(Of(Events(windows), contract)) && Of(Events(windows), contract) != []
    ensures Run(contracts, windows).Keys == contracts.Keys
    ensures Run(contracts, windows)[contract] == Last(Of(Events(windows), contract))
       <==> OnChain(contracts[contract], Of(Events(windows), contract))
  {
    RunReplaysHistory(contracts, windows, contract);
    ReplayEndsAtLastIff(contracts[contract], Of(Events(windows), contract));
  }
}
