/**
 Which executions the log walk restores, read off the execution itself. `LogTraverser` characterises the lists it
 returns by annotations of the call tree. Here the call tree reads the list of what was logged in one pass, with
 nothing to guess: each frame takes its payment and its master event where they come next, each block takes the events
 of its contract that come next, and after a block the next event further on must not be of that contract.
 */
module LogReading {
  import opened Common
  import opened LogTraverser

  // ---------------------------------------------------------------------------
  // One pass over what was logged
  // ---------------------------------------------------------------------------

  /** The list after the events of the contract at its front. */
  function AfterBlock(contract: Address, items: seq<LogItem>): seq<LogItem> {
    if items != [] && items[0].EventItem? && items[0].event.address == contract
    then AfterBlock(contract, items[1..])
    else items
  }

  /** A block ends where the next event, whatever payments come before it, is of another contract. */
  function ReadBlock(contract: Address, items: seq<LogItem>): Option<seq<LogItem>> {
    var rest := AfterBlock(contract, items);
    if Stops(contract, EventsOf(rest)) then Some(rest) else None
  }

  function ReadTransfer(t: Node, items: seq<LogItem>): Option<seq<LogItem>> {
    if !Pays(t.kind, t.value) then Some(items)
    else if items != [] && items[0].TransferItem? && items[0].transfer.sender == t.from
            && items[0].transfer.recipient == t.to && items[0].transfer.amount == t.value
    then Some(items[1..])
    else None
  }

  function ReadMaster(t: Node, items: seq<LogItem>): Option<seq<LogItem>> {
    if !IsCreate(t.kind) then Some(items)
    else if items != [] && items[0].EventItem? && items[0].event.address == t.to
            && items[0].event.newMaster == Some(t.from)
    then Some(items[1..])
    else None
  }

  function ReadHeader(t: Node, items: seq<LogItem>): Option<seq<LogItem>> {
    match ReadTransfer(t, items)
    case None => None
    case Some(paid) => ReadMaster(t, paid)
  }

  /** What is left of the list after everything the frame logged, or None if it is not there in this order. */
  function ReadTree(t: Node, items: seq<LogItem>): Option<seq<LogItem>>
    decreases t, 1
  {
    if items == [] || t.kind.StaticCall? then Some(items)
    else if t.kind.Unknown? then None
    else
      var contract := ContractOf(t.kind, t.from, t.to, t.self);
      match ReadHeader(t, items)
      case None => None
      case Some(entered) =>
        match ReadBlock(contract, entered)
        case None => None
        case Some(rest) => ReadCalls(t.calls, contract, rest)
  }

  function ReadCalls(calls: seq<Node>, contract: Address, items: seq<LogItem>): Option<seq<LogItem>>
    decreases calls, 0
  {
    if calls == [] then Some(items)
    else
      match ReadTree(calls[0], items)
      case None => None
      case Some(back) =>
        match ReadBlock(contract, back)
        case None => None
        case Some(rest) => ReadCalls(calls[1..], contract, rest)
  }

  // ---------------------------------------------------------------------------
  // The walk over two lists keeps step with the pass over one
  // ---------------------------------------------------------------------------

  /** The walk has yielded `items` up to `rest`, and has the two halves of `rest` left. */
  ghost predicate At(w: Walk, items: seq<LogItem>, rest: seq<LogItem>) {
    w.ok && w.events == EventsOf(rest) && w.transfers == TransfersOf(rest) && w.out + rest == items
  }

  /** The pass goes through, and then the two are in step; a walk that is still on the way to `items` means it does. */
  ghost predicate InStep(w: Walk, items: seq<LogItem>, read: Option<seq<LogItem>>) {
    && (read.Some? ==> At(w, items, read.value))
    && (w.ok && w.out <= items ==> read.Some?)
  }

  lemma FirstOfRest(out: seq<LogItem>, item: LogItem, items: seq<LogItem>, rest: seq<LogItem>)
    requires out + rest == items && out + [item] <= items
    ensures rest != [] && rest[0] == item
  {
    assert items[|out|] == (out + [item])[|out|];
  }

  /** The next item moves from what is left to what has been yielded. */
  lemma OneFurther(w: Walk, next: Walk, items: seq<LogItem>, rest: seq<LogItem>)
    requires At(w, items, rest) && rest != [] && next.ok && next.out == w.out + [rest[0]]
    requires next.events == if rest[0].EventItem? then w.events[1..] else w.events
    requires next.transfers == if rest[0].TransferItem? then w.transfers[1..] else w.transfers
    ensures At(next, items, rest[1..])
  {
    assert rest == [rest[0]] + rest[1..];
    Assoc(w.out, [rest[0]], rest[1..]);
  }

  lemma TransferKeepsStep(t: Node, w: Walk, items: seq<LogItem>, rest: seq<LogItem>)
    requires At(w, items, rest)
    ensures InStep(TakeTransfer(t, w), items, ReadTransfer(t, rest))
  {
    if Pays(t.kind, t.value) {
      if TakeTransfer(t, w).ok && TakeTransfer(t, w).out <= items {
        FirstOfRest(w.out, TransferItem(w.transfers[0]), items, rest);
      }
      if ReadTransfer(t, rest).Some? {
        OneFurther(w, TakeTransfer(t, w), items, rest);
      }
    }
  }

  lemma MasterKeepsStep(t: Node, w: Walk, items: seq<LogItem>, rest: seq<LogItem>)
    requires At(w, items, rest)
    ensures InStep(TakeMaster(t, w), items, ReadMaster(t, rest))
  {
    if IsCreate(t.kind) {
      if TakeMaster(t, w).ok && TakeMaster(t, w).out <= items {
        FirstOfRest(w.out, EventItem(w.events[0]), items, rest);
      }
      if ReadMaster(t, rest).Some? {
        OneFurther(w, TakeMaster(t, w), items, rest);
      }
    }
  }

  lemma HeaderKeepsStep(t: Node, w: Walk, items: seq<LogItem>, rest: seq<LogItem>)
    requires At(w, items, rest)
    ensures InStep(TakeHeader(t, w), items, ReadHeader(t, rest))
  {
    TransferKeepsStep(t, w, items, rest);
    if ReadTransfer(t, rest).Some? {
      MasterKeepsStep(t, TakeTransfer(t, w), items, ReadTransfer(t, rest).value);
    } else {
      MasterYields(t, TakeTransfer(t, w));
    }
  }

  lemma {:induction false} BlockKeepsStep(contract: Address, w: Walk, items: seq<LogItem>, rest: seq<LogItem>)
    requires At(w, items, rest)
    ensures InStep(Drain(contract, w), items, ReadBlock(contract, rest))
    decreases |w.events|
  {
    if w.events != [] && w.events[0].address == contract {
      var next := w.(events := w.events[1..], out := w.out + [EventItem(w.events[0])]);
      DrainYields(contract, next);
      if rest[0].EventItem? {
        OneFurther(w, next, items, rest);
        BlockKeepsStep(contract, next, items, rest[1..]);
      } else if Drain(contract, w).out <= items {
        FirstOfRest(w.out, EventItem(w.events[0]), items, rest);
      }
    }
  }

  // ---------------------------------------------------------------------------
  // Nothing that was yielded is taken back
  // ---------------------------------------------------------------------------

  lemma MasterYields(t: Node, w: Walk)
    ensures w.out <= TakeMaster(t, w).out
  {
  }

  lemma {:induction false} DrainYields(contract: Address, w: Walk)
    ensures w.out <= Drain(contract, w).out && Drain(contract, w).ok == w.ok
    decreases |w.events|
  {
    if w.events != [] && w.events[0].address == contract {
      DrainYields(contract, w.(events := w.events[1..], out := w.out + [EventItem(w.events[0])]));
    }
  }

  lemma {:induction false} TreeYields(t: Node, w: Walk)
    ensures w.out <= WalkTree(t, w).out
    decreases t, 1
  {
    if !(w.events == [] && w.transfers == []) && Enters(t.kind) {
      var contract, entered := ContractOf(t.kind, t.from, t.to, t.self), TakeHeader(t, w);
      MasterYields(t, TakeTransfer(t, w));
      if entered.ok {
        DrainYields(contract, entered);
        CallsYield(t.calls, contract, Drain(contract, entered));
      }
    }
  }

  lemma {:induction false} CallsYield(calls: seq<Node>, contract: Address, w: Walk)
    ensures w.out <= WalkCalls(calls, contract, w).out
    decreases calls, 0
  {
    if calls != [] {
      TreeYields(calls[0], w);
      var back := WalkTree(calls[0], w);
      if back.ok {
        DrainYields(contract, back);
        CallsYield(calls[1..], contract, Drain(contract, back));
      }
    }
  }

  // ---------------------------------------------------------------------------
  // The whole walk
  // ---------------------------------------------------------------------------

  lemma {:induction false} TreeKeepsStep(t: Node, w: Walk, items: seq<LogItem>, rest: seq<LogItem>)
    requires At(w, items, rest)
    ensures InStep(WalkTree(t, w), items, ReadTree(t, rest))
    decreases t, 1
  {
    if w.events == [] && w.transfers == [] {
      NothingProjected(rest);
    } else if Enters(t.kind) {
      var contract, entered := ContractOf(t.kind, t.from, t.to, t.self), TakeHeader(t, w);
      HeaderKeepsStep(t, w, items, rest);
      if entered.ok {
        BlockThenCalls(t.calls, contract, entered, items, ReadHeader(t, rest));
      }
    }
  }

  /** A block, and then the calls after it. */
  lemma {:induction false} BlockThenCalls(calls: seq<Node>, contract: Address, w: Walk, items: seq<LogItem>,
                                          read: Option<seq<LogItem>>)
    requires w.ok && InStep(w, items, read)
    ensures var block := if read.Some? then ReadBlock(contract, read.value) else None;
            InStep(WalkCalls(calls, contract, Drain(contract, w)), items,
                   if block.Some? then ReadCalls(calls, contract, block.value) else None)
    decreases calls, 1
  {
    var drained := Drain(contract, w);
    DrainYields(contract, w);
    CallsYield(calls, contract, drained);
    if read.Some? {
      BlockKeepsStep(contract, w, items, read.value);
      var block := ReadBlock(contract, read.value);
      if block.Some? {
        CallsKeepStep(calls, contract, drained, items, block.value);
      }
    }
  }

  lemma {:induction false} CallsKeepStep(calls: seq<Node>, contract: Address, w: Walk, items: seq<LogItem>,
                                         rest: seq<LogItem>)
    requires At(w, items, rest)
    ensures InStep(WalkCalls(calls, contract, w), items, ReadCalls(calls, contract, rest))
    decreases calls, 0
  {
    if calls != [] {
      TreeKeepsStep(calls[0], w, items, rest);
      var back := WalkTree(calls[0], w);
      if back.ok {
        BlockThenCalls(calls[1..], contract, back, items, ReadTree(calls[0], rest));
      }
    }
  }

  /** The walk returns a list exactly when the list has the two given projections and the call tree reads it in one
      pass to its end. */
  lemma IteratorReads(t: Node, events: seq<Event>, transfers: seq<Transfer>, items: seq<LogItem>)
    ensures NewIterator(t, events, transfers) == Some(items)
       <==> EventsOf(items) == events && TransfersOf(items) == transfers && ReadTree(t, items) == Some([])
  {
    if NewIterator(t, events, transfers) == Some(items) {
      IteratorCharacterised(t, events, transfers, items);
    }
    if EventsOf(items) == events && TransfersOf(items) == transfers {
      var w := Walk(true, events, transfers, []);
      assert At(w, items, items);
      TreeKeepsStep(t, w, items, items);
      if ReadTree(t, items).Some? && WalkTree(t, w).events == [] && WalkTree(t, w).transfers == [] {
        NothingProjected(ReadTree(t, items).value);
        assert WalkTree(t, w).out + [] == WalkTree(t, w).out;
      }
    }
  }

  /** So an execution is restored exactly when its call tree reads what it logged in one pass. */
  lemma RestoredIff(f: Frame)
    ensures NewIterator(Erase(f), EventsOf(Print(f)), TransfersOf(Print(f))) == Some(Print(f))
       <==> ReadTree(Erase(f), Print(f)) == Some([])
  {
    IteratorReads(Erase(f), EventsOf(Print(f)), TransfersOf(Print(f)), Print(f));
  }
}
