/**
 The trace walker that rebuilds the single order of events and transfers of a clause from its
 call tree and from two separate lists.

 `Walker.Traverse` is the code: a recursive walk that advances two shared counters. It is proved
 against `WalkTree` on values, and the theorems at the end say which interleavings the walk returns.
 */
module LogTraverser {
  import opened Common

  datatype CallType = Create | Create2 | Call | CallCode | DelegateCall | StaticCall | Unknown

  /** One frame of the tracer's output. `self` is the address argument decoded from the input of a
      call to the Prototype contract, when the input is long enough and decodes to an address. */
  datatype Node = Node(kind: CallType, from: Address, to: Address, value: nat, self: Option<Address>, calls: seq<Node>)

  /** `newMaster` is Some exactly for a $Master event, and then holds its decoded argument. */
  datatype Event = Event(address: Address, newMaster: Option<Address>, payload: nat)
  datatype Transfer = Transfer(sender: Address, recipient: Address, amount: nat, token: nat)
  datatype LogItem = EventItem(event: Event) | TransferItem(transfer: Transfer)

  /** The address of the Prototype built-in contract. */
  const PROTOTYPE_ADDRESS: Address := 0x50726f746f74797065

  predicate IsCreate(kind: CallType) {
    kind.Create? || kind.Create2?
  }

  /** The frame kinds whose value moves, and is therefore logged as a transfer. */
  predicate Pays(kind: CallType, value: nat) {
    (IsCreate(kind) || kind.Call?) && value != 0
  }

  /** The frame kinds the walk enters. */
  predicate Enters(kind: CallType) {
    !kind.StaticCall? && !kind.Unknown?
  }

  /** The address a frame's own events carry. */
  function ContractOf(kind: CallType, from: Address, to: Address, self: Option<Address>): Address {
    match kind
    case CallCode => from
    case DelegateCall => from
    case Call => if to == PROTOTYPE_ADDRESS && self.Some? then self.value else to
    case _ => to
  }

  // ---------------------------------------------------------------------------
  // Item lists and their two projections
  // ---------------------------------------------------------------------------

  function EventsOf(items: seq<LogItem>): seq<Event> {
    if items == [] then []
    else if items[0].EventItem? then [items[0].event] + EventsOf(items[1..])
    else EventsOf(items[1..])
  }

  function TransfersOf(items: seq<LogItem>): seq<Transfer> {
    if items == [] then []
    else if items[0].TransferItem? then [items[0].transfer] + TransfersOf(items[1..])
    else TransfersOf(items[1..])
  }

  function EventItems(events: seq<Event>): seq<LogItem> {
    if events == [] then [] else [EventItem(events[0])] + EventItems(events[1..])
  }

  function TransferItems(transfers: seq<Transfer>): seq<LogItem> {
    if transfers == [] then [] else [TransferItem(transfers[0])] + TransferItems(transfers[1..])
  }

  /** Concatenation is associative. */
  lemma Assoc<T>(a: seq<T>, b: seq<T>, c: seq<T>)
    ensures (a + b) + c == a + (b + c)
  {
  }

  lemma {:induction false} EventsOfAppend(a: seq<LogItem>, b: seq<LogItem>)
    ensures EventsOf(a + b) == EventsOf(a) + EventsOf(b)
  {
    if a == [] {
      assert a + b == b;
    } else {
      assert (a + b)[1..] == a[1..] + b;
      EventsOfAppend(a[1..], b);
    }
  }

  lemma {:induction false} TransfersOfAppend(a: seq<LogItem>, b: seq<LogItem>)
    ensures TransfersOf(a + b) == TransfersOf(a) + TransfersOf(b)
  {
    if a == [] {
      assert a + b == b;
    } else {
      assert (a + b)[1..] == a[1..] + b;
      TransfersOfAppend(a[1..], b);
    }
  }

  lemma {:induction false} ProjectEventItems(events: seq<Event>)
    ensures EventsOf(EventItems(events)) == events
    ensures TransfersOf(EventItems(events)) == []
  {
    if events != [] {
      assert EventItems(events)[1..] == EventItems(events[1..]);
      ProjectEventItems(events[1..]);
    }
  }

  lemma {:induction false} ProjectTransferItems(transfers: seq<Transfer>)
    ensures EventsOf(TransferItems(transfers)) == []
    ensures TransfersOf(TransferItems(transfers)) == transfers
  {
    if transfers != [] {
      assert TransferItems(transfers)[1..] == TransferItems(transfers[1..]);
      ProjectTransferItems(transfers[1..]);
    }
  }

  lemma {:induction false} NothingProjected(items: seq<LogItem>)
    requires EventsOf(items) == [] && TransfersOf(items) == []
    ensures items == []
  {
  }

  // ---------------------------------------------------------------------------
  // The walk on values
  // ---------------------------------------------------------------------------

  /** What is left of the two lists, what has been yielded, and whether the walk is still running
      (`ok`) or has thrown. */
  datatype Walk = Walk(ok: bool, events: seq<Event>, transfers: seq<Transfer>, out: seq<LogItem>)

  /** Yield events for as long as they carry the frame's address. */
  function Drain(contract: Address, w: Walk): Walk
    decreases |w.events|
  {
    if w.events != [] && w.events[0].address == contract
    then Drain(contract, w.(events := w.events[1..], out := w.out + [EventItem(w.events[0])]))
    else w
  }

  /** Yield the transfer of a paying frame, or throw when it is not the next one. */
  function TakeTransfer(t: Node, w: Walk): Walk {
    if !Pays(t.kind, t.value) then w
    else if w.transfers != [] && w.transfers[0].sender == t.from && w.transfers[0].recipient == t.to
            && w.transfers[0].amount == t.value
    then w.(transfers := w.transfers[1..], out := w.out + [TransferItem(w.transfers[0])])
    else w.(ok := false)
  }

  /** Yield the $Master event of a creation, or throw when it is not the next one. */
  function TakeMaster(t: Node, w: Walk): Walk {
    if !IsCreate(t.kind) then w
    else if w.events != [] && w.events[0].address == t.to && w.events[0].newMaster == Some(t.from)
    then w.(events := w.events[1..], out := w.out + [EventItem(w.events[0])])
    else w.(ok := false)
  }

  function TakeHeader(t: Node, w: Walk): Walk {
    var p := TakeTransfer(t, w);
    if p.ok then TakeMaster(t, p) else p
  }

  function WalkTree(t: Node, w: Walk): Walk
    decreases t, 1
  {
    if w.events == [] && w.transfers == [] then w
    else if t.kind.StaticCall? then w
    else if t.kind.Unknown? then w.(ok := false)
    else
      var contract := ContractOf(t.kind, t.from, t.to, t.self);
      var h := TakeHeader(t, w);
      if h.ok then WalkCalls(t.calls, contract, Drain(contract, h)) else h
  }

  function WalkCalls(calls: seq<Node>, contract: Address, w: Walk): Walk
    decreases calls, 0
  {
    if calls == [] then w
    else
      var r := WalkTree(calls[0], w);
      if r.ok then WalkCalls(calls[1..], contract, Drain(contract, r)) else r
  }

  /** The whole generator: the item list when it runs to its end, None when it throws. */
  function NewIterator(t: Node, events: seq<Event>, transfers: seq<Transfer>): Option<seq<LogItem>> {
    var w := WalkTree(t, Walk(true, events, transfers, []));
    if w.ok && w.events == [] && w.transfers == [] then Some(w.out) else None
  }

  // ---------------------------------------------------------------------------
  // The generator as written: one walker object, two counters
  // ---------------------------------------------------------------------------

  class Walker {
    const events: seq<Event>
    const transfers: seq<Transfer>
    var event: nat
    var transfer: nat
    var items: seq<LogItem>

    constructor (events: seq<Event>, transfers: seq<Transfer>)
      ensures this.events == events && this.transfers == transfers
      ensures InRange() && State(true) == Walk(true, events, transfers, [])
    {
      this.events, this.transfers := events, transfers;
      event, transfer, items := 0, 0, [];
    }

    predicate InRange()
      reads this
    {
      event <= |events| && transfer <= |transfers|
    }

    function State(ok: bool): Walk
      requires InRange()
      reads this
    {
      Walk(ok, events[event..], transfers[transfer..], items)
    }

    method YieldEvents(contract: Address)
      requires InRange()
      modifies this
      ensures InRange() && State(true) == Drain(contract, old(State(true)))
    {
      while event < |events| && events[event].address == contract
        invariant InRange()
        invariant Drain(contract, State(true)) == Drain(contract, old(State(true)))
        decreases |events| - event
      {
        assert events[event..][1..] == events[event + 1..];
        items := items + [EventItem(events[event])];
        event := event + 1;
      }
    }

    method YieldHeader(t: Node) returns (ok: bool)
      requires InRange()
      modifies this
      ensures InRange() && State(ok) == TakeHeader(t, old(State(true)))
    {
      if Pays(t.kind, t.value) {
        if transfer == |transfers| || transfers[transfer].sender != t.from || transfers[transfer].recipient != t.to
           || transfers[transfer].amount != t.value
        {
          return false;
        }
        items := items + [TransferItem(transfers[transfer])];
        transfer := transfer + 1;
      }
      if IsCreate(t.kind) {
        if event == |events| || events[event].address != t.to || events[event].newMaster != Some(t.from) {
          return false;
        }
        items := items + [EventItem(events[event])];
        event := event + 1;
      }
      ok := true;
    }

    method Traverse(t: Node) returns (ok: bool)
      requires InRange()
      modifies this
      ensures InRange() && State(ok) == WalkTree(t, old(State(true)))
      decreases t
    {
      if |events| == event && |transfers| == transfer {
        return true;
      }
      if t.kind.StaticCall? {
        return true;
      }
      if t.kind.Unknown? {
        return false;
      }
      ok := YieldHeader(t);
      if !ok {
        return;
      }
      var contract := ContractOf(t.kind, t.from, t.to, t.self);
      YieldEvents(contract);
      ghost var drained := State(true);
      assert WalkTree(t, old(State(true))) == WalkCalls(t.calls, contract, drained);
      DrainStops(contract, TakeHeader(t, old(State(true))));
      for i := 0 to |t.calls|
        invariant InRange()
        invariant WalkCalls(t.calls[i..], contract, State(true)) == WalkCalls(t.calls, contract, drained)
        invariant Stops(contract, State(true).events)
      {
        assert t.calls[i..][0] == t.calls[i] && t.calls[i..][1..] == t.calls[i + 1..];
        ok := Traverse(t.calls[i]);
        if !ok {
          return;
        }
        ghost var back := State(true);
        YieldEvents(contract);
        DrainStops(contract, back);
      }
      // the closing loop of the source: nothing is left for it to yield
      YieldEvents(contract);
      ok := true;
    }
  }

  lemma {:induction false} DrainStops(contract: Address, w: Walk)
    ensures Stops(contract, Drain(contract, w).events)
    decreases |w.events|
  {
    if w.events != [] && w.events[0].address == contract {
      DrainStops(contract, w.(events := w.events[1..], out := w.out + [EventItem(w.events[0])]));
    }
  }

  /** The generator driven to its end by the caller: what it yielded, and whether it ran to its end or
      threw on the way. An undefined tracer throws as soon as its type is read, which is when a list is
      non-empty. */
  method Iterate(tracer: Option<Node>, events: seq<Event>, transfers: seq<Transfer>)
    returns (ok: bool, items: seq<LogItem>)
    ensures (if ok then Some(items) else None) == IterateMaybe(tracer, events, transfers)
  {
    if tracer.None? {
      return events == [] && transfers == [], [];
    }
    var walker := new Walker(events, transfers);
    ok := walker.Traverse(tracer.value);
    ghost var end := walker.State(ok);
    assert NewIterator(tracer.value, events, transfers)
        == if end.ok && end.events == [] && end.transfers == [] then Some(end.out) else None;
    items := walker.items;
    ok := ok && |events| == walker.event && |transfers| == walker.transfer;
  }

  function IterateMaybe(tracer: Option<Node>, events: seq<Event>, transfers: seq<Transfer>): Option<seq<LogItem>> {
    match tracer
    case None => if events == [] && transfers == [] then Some([]) else None
    case Some(t) => NewIterator(t, events, transfers)
  }

  /** Two empty lists are returned as an empty list whatever the tracer is; an undefined one does no more. */
  lemma WithoutTracer(tracer: Option<Node>, events: seq<Event>, transfers: seq<Transfer>)
    ensures events == [] && transfers == [] ==> IterateMaybe(tracer, events, transfers) == Some([])
    ensures tracer.None? ==> (IterateMaybe(tracer, events, transfers).Some? <==> events == [] && transfers == [])
  {
  }

  // ---------------------------------------------------------------------------
  // The printer the walk inverts
  // ---------------------------------------------------------------------------

  /** A call tree annotated with the events each frame emits: `head` before its first child call,
      and one block after each child call. `Silent` is a frame that printed nothing. */
  datatype Frame =
    | Silent(node: Node)
    | Open(kind: CallType, from: Address, to: Address, value: nat, self: Option<Address>,
           token: nat, masterData: nat, head: seq<Event>, subs: seq<Sub>)
  datatype Sub = Sub(frame: Frame, after: seq<Event>)

  function HeaderTransfers(f: Frame): seq<Transfer>
    requires f.Open?
  {
    if Pays(f.kind, f.value) then [Transfer(f.from, f.to, f.value, f.token)] else []
  }

  function HeaderEvents(f: Frame): seq<Event>
    requires f.Open?
  {
    if IsCreate(f.kind) then [Event(f.to, Some(f.from), f.masterData)] else []
  }

  /** What entering the frame logs: the payment, then for a creation its $Master event. */
  function Header(f: Frame): seq<LogItem>
    requires f.Open?
  {
    TransferItems(HeaderTransfers(f)) + EventItems(HeaderEvents(f))
  }

  /** What executing the frame logs, in order. */
  function Print(f: Frame): seq<LogItem>
    decreases f, 1
  {
    match f
    case Silent(_) => []
    case Open(_, _, _, _, _, _, _, head, subs) => Header(f) + EventItems(head) + PrintSubs(subs)
  }

  function PrintSubs(subs: seq<Sub>): seq<LogItem>
    decreases subs, 0
  {
    if subs == [] then []
    else Print(subs[0].frame) + EventItems(subs[0].after) + PrintSubs(subs[1..])
  }

  /** The events of a frame, and below its transfers: the two projections of what it prints. */
  function EventsIn(f: Frame): seq<Event>
    decreases f, 1
  {
    match f
    case Silent(_) => []
    case Open(_, _, _, _, _, _, _, head, subs) => HeaderEvents(f) + (head + EventsInSubs(subs))
  }

  function EventsInSubs(subs: seq<Sub>): seq<Event>
    decreases subs, 0
  {
    if subs == [] then [] else EventsIn(subs[0].frame) + (subs[0].after + EventsInSubs(subs[1..]))
  }

  function TransfersIn(f: Frame): seq<Transfer>
    decreases f, 1
  {
    match f
    case Silent(_) => []
    case Open(_, _, _, _, _, _, _, _, subs) => HeaderTransfers(f) + TransfersInSubs(subs)
  }

  function TransfersInSubs(subs: seq<Sub>): seq<Transfer>
    decreases subs, 0
  {
    if subs == [] then [] else TransfersIn(subs[0].frame) + TransfersInSubs(subs[1..])
  }

  /** The call tree without its annotation. */
  function Erase(f: Frame): Node
    decreases f, 1
  {
    match f
    case Silent(node) => node
    case Open(kind, from, to, value, self, _, _, _, subs) => Node(kind, from, to, value, self, EraseSubs(subs))
  }

  function EraseSubs(subs: seq<Sub>): seq<Node>
    decreases subs, 0
  {
    if subs == [] then [] else [Erase(subs[0].frame)] + EraseSubs(subs[1..])
  }

  predicate AllAt(contract: Address, events: seq<Event>) {
    forall i :: 0 <= i < |events| ==> events[i].address == contract
  }

  /** Every block of an entered frame carries that frame's address. */
  predicate WellFormed(f: Frame)
    decreases f, 1
  {
    f.Open? ==>
      var contract := ContractOf(f.kind, f.from, f.to, f.self);
      Enters(f.kind) && AllAt(contract, f.head) && WellFormedSubs(f.subs, contract)
  }

  predicate WellFormedSubs(subs: seq<Sub>, contract: Address)
    decreases subs, 0
  {
    subs != [] ==>
      WellFormed(subs[0].frame) && AllAt(contract, subs[0].after) && WellFormedSubs(subs[1..], contract)
  }

  predicate Stops(contract: Address, events: seq<Event>) {
    events == [] || events[0].address != contract
  }

  /** With `events` and `transfers` still to come after the frame: after every block the next event is
      not at the block's own address, and a silent frame is a static call or comes after the last
      event and the last transfer. */
  predicate Separated(f: Frame, events: seq<Event>, transfers: seq<Transfer>)
    decreases f, 1
  {
    match f
    case Silent(node) => node.kind.StaticCall? || (events == [] && transfers == [])
    case Open(kind, from, to, _, self, _, _, _, subs) =>
      var contract := ContractOf(kind, from, to, self);
      Stops(contract, EventsInSubs(subs) + events) && SeparatedSubs(subs, contract, events, transfers)
  }

  predicate SeparatedSubs(subs: seq<Sub>, contract: Address, events: seq<Event>, transfers: seq<Transfer>)
    decreases subs, 0
  {
    subs != [] ==>
      var laterEvents := EventsInSubs(subs[1..]) + events;
      var laterTransfers := TransfersInSubs(subs[1..]) + transfers;
      && Separated(subs[0].frame, subs[0].after + laterEvents, laterTransfers)
      && Stops(contract, laterEvents)
      && SeparatedSubs(subs[1..], contract, events, transfers)
  }

  // ---------------------------------------------------------------------------
  // Printing then walking: the walk returns what was printed
  // ---------------------------------------------------------------------------

  lemma {:induction false} PrintProjects(f: Frame)
    ensures EventsOf(Print(f)) == EventsIn(f)
    ensures TransfersOf(Print(f)) == TransfersIn(f)
    decreases f, 1
  {
    if f.Open? {
      var payment, master, block, rest :=
        TransferItems(HeaderTransfers(f)), EventItems(HeaderEvents(f)), EventItems(f.head), PrintSubs(f.subs);
      SplitProjections(payment + master, block, rest);
      EventsOfAppend(payment, master);
      TransfersOfAppend(payment, master);
      ProjectTransferItems(HeaderTransfers(f));
      ProjectEventItems(HeaderEvents(f));
      ProjectEventItems(f.head);
      PrintSubsProjects(f.subs);
    }
  }

  lemma {:induction false} PrintSubsProjects(subs: seq<Sub>)
    ensures EventsOf(PrintSubs(subs)) == EventsInSubs(subs)
    ensures TransfersOf(PrintSubs(subs)) == TransfersInSubs(subs)
    decreases subs, 0
  {
    if subs != [] {
      SplitProjections(Print(subs[0].frame), EventItems(subs[0].after), PrintSubs(subs[1..]));
      PrintProjects(subs[0].frame);
      ProjectEventItems(subs[0].after);
      PrintSubsProjects(subs[1..]);
    }
  }

  lemma SplitProjections(a: seq<LogItem>, b: seq<LogItem>, c: seq<LogItem>)
    ensures EventsOf(a + b + c) == EventsOf(a) + (EventsOf(b) + EventsOf(c))
    ensures TransfersOf(a + b + c) == TransfersOf(a) + (TransfersOf(b) + TransfersOf(c))
  {
    EventsOfAppend(a + b, c);
    EventsOfAppend(a, b);
    Assoc(EventsOf(a), EventsOf(b), EventsOf(c));
    TransfersOfAppend(a + b, c);
    TransfersOfAppend(a, b);
    Assoc(TransfersOf(a), TransfersOf(b), TransfersOf(c));
  }

  lemma {:induction false} DrainBlock(contract: Address, block: seq<Event>, w: Walk, after: Walk)
    requires AllAt(contract, block) && Stops(contract, after.events)
    requires w == Walk(after.ok, block + after.events, after.transfers, w.out)
    requires after.out == w.out + EventItems(block)
    ensures Drain(contract, w) == after
  {
    if block == [] {
      assert w.events == after.events;
    } else {
      var next := w.(events := w.events[1..], out := w.out + [EventItem(w.events[0])]);
      assert w.events[0] == block[0] && w.events[1..] == block[1..] + after.events;
      Assoc(w.out, [EventItem(block[0])], EventItems(block[1..]));
      DrainBlock(contract, block[1..], next, after);
    }
  }

  lemma TakeHeaderPrinted(f: Frame, w: Walk, after: Walk)
    requires f.Open? && w.ok && after.ok
    requires w.events == HeaderEvents(f) + after.events && w.transfers == HeaderTransfers(f) + after.transfers
    requires after.out == w.out + Header(f)
    ensures TakeHeader(Erase(f), w) == after
  {
    var t := Erase(f);
    var p := TakeTransfer(t, w);
    assert p.ok && p.transfers == after.transfers && p.out == w.out + TransferItems(HeaderTransfers(f));
    var m := TakeMaster(t, p);
    assert m.ok && m.events == after.events && m.out == p.out + EventItems(HeaderEvents(f));
    Assoc(w.out, TransferItems(HeaderTransfers(f)), EventItems(HeaderEvents(f)));
  }

  lemma {:induction false} WalkPrinted(f: Frame, w: Walk, after: Walk)
    requires w.ok && after.ok
    requires WellFormed(f) && Separated(f, after.events, after.transfers)
    requires w.events == EventsIn(f) + after.events && w.transfers == TransfersIn(f) + after.transfers
    requires after.out == w.out + Print(f)
    ensures WalkTree(Erase(f), w) == after
    decreases f, 1
  {
    if w.events == [] && w.transfers == [] {
      PrintProjects(f);
      NothingProjected(Print(f));
    } else if f.Open? {
      var contract := ContractOf(f.kind, f.from, f.to, f.self);
      var subEvents := EventsInSubs(f.subs) + after.events;
      var subTransfers := TransfersInSubs(f.subs) + after.transfers;
      var entered := Walk(true, f.head + subEvents, subTransfers, w.out + Header(f));
      var drained := Walk(true, subEvents, subTransfers, entered.out + EventItems(f.head));
      Assoc(HeaderEvents(f), f.head + EventsInSubs(f.subs), after.events);
      Assoc(f.head, EventsInSubs(f.subs), after.events);
      Assoc(HeaderTransfers(f), TransfersInSubs(f.subs), after.transfers);
      TakeHeaderPrinted(f, w, entered);
      DrainBlock(contract, f.head, entered, drained);
      Assoc(w.out, Header(f), EventItems(f.head));
      Assoc(w.out, Header(f) + EventItems(f.head), PrintSubs(f.subs));
      WalkCallsPrinted(f.subs, contract, drained, after);
    }
  }

  lemma {:induction false} WalkCallsPrinted(subs: seq<Sub>, contract: Address, w: Walk, after: Walk)
    requires w.ok && after.ok
    requires WellFormedSubs(subs, contract) && SeparatedSubs(subs, contract, after.events, after.transfers)
    requires w.events == EventsInSubs(subs) + after.events && w.transfers == TransfersInSubs(subs) + after.transfers
    requires after.out == w.out + PrintSubs(subs)
    ensures WalkCalls(EraseSubs(subs), contract, w) == after
    decreases subs, 0
  {
    if subs == [] {
      assert w == after;
    } else {
      var frame, block, rest := subs[0].frame, subs[0].after, subs[1..];
      var laterEvents := EventsInSubs(rest) + after.events;
      var laterTransfers := TransfersInSubs(rest) + after.transfers;
      var back := Walk(true, block + laterEvents, laterTransfers, w.out + Print(frame));
      var drained := Walk(true, laterEvents, laterTransfers, back.out + EventItems(block));
      Assoc(EventsIn(frame), block + EventsInSubs(rest), after.events);
      Assoc(block, EventsInSubs(rest), after.events);
      Assoc(TransfersIn(frame), TransfersInSubs(rest), after.transfers);
      WalkPrinted(frame, w, back);
      DrainBlock(contract, block, back, drained);
      Assoc(w.out, Print(frame), EventItems(block));
      Assoc(w.out, Print(frame) + EventItems(block), PrintSubs(rest));
      WalkCallsPrinted(rest, contract, drained, after);
      assert EraseSubs(subs)[0] == Erase(frame) && EraseSubs(subs)[1..] == EraseSubs(rest);
    }
  }

  // ---------------------------------------------------------------------------
  // Walking then annotating: whatever the walk returns was printed by some separated annotation
  // ---------------------------------------------------------------------------

  /** `f` accounts for the part of the walk from `before` to `after`. */
  ghost predicate Accounts(f: Frame, t: Node, before: Walk, after: Walk) {
    && Erase(f) == t && WellFormed(f) && Separated(f, after.events, after.transfers)
    && after.out == before.out + Print(f)
    && before.events == EventsIn(f) + after.events
    && before.transfers == TransfersIn(f) + after.transfers
  }

  ghost predicate AccountsSubs(subs: seq<Sub>, calls: seq<Node>, contract: Address, before: Walk, after: Walk) {
    && EraseSubs(subs) == calls && WellFormedSubs(subs, contract)
    && SeparatedSubs(subs, contract, after.events, after.transfers)
    && after.out == before.out + PrintSubs(subs)
    && before.events == EventsInSubs(subs) + after.events
    && before.transfers == TransfersInSubs(subs) + after.transfers
  }

  lemma {:induction false} DrainTakes(contract: Address, w: Walk) returns (block: seq<Event>)
    ensures AllAt(contract, block)
    ensures w.events == block + Drain(contract, w).events
    ensures Drain(contract, w).out == w.out + EventItems(block)
    ensures Drain(contract, w).transfers == w.transfers && Drain(contract, w).ok == w.ok
    decreases |w.events|
  {
    if w.events != [] && w.events[0].address == contract {
      var next := w.(events := w.events[1..], out := w.out + [EventItem(w.events[0])]);
      var rest := DrainTakes(contract, next);
      block := [w.events[0]] + rest;
      assert block[1..] == rest;
      Assoc(w.out, [EventItem(block[0])], EventItems(rest));
      Assoc([w.events[0]], rest, Drain(contract, next).events);
      assert w.events == [w.events[0]] + next.events;
    } else {
      block := [];
    }
  }

  lemma TakeHeaderTakes(f: Frame, t: Node, w: Walk)
    requires f.Open? && w.ok && TakeHeader(t, w).ok
    requires f.kind == t.kind && f.from == t.from && f.to == t.to && f.value == t.value
    requires Pays(t.kind, t.value) ==> w.transfers != [] && f.token == w.transfers[0].token
    requires IsCreate(t.kind) ==> w.events != [] && f.masterData == w.events[0].payload
    ensures TakeHeader(t, w).out == w.out + Header(f)
    ensures w.events == HeaderEvents(f) + TakeHeader(t, w).events
    ensures w.transfers == HeaderTransfers(f) + TakeHeader(t, w).transfers
  {
    var p := TakeTransfer(t, w);
    assert p.out == w.out + TransferItems(HeaderTransfers(f));
    var m := TakeMaster(t, p);
    assert m.out == p.out + EventItems(HeaderEvents(f));
    Assoc(w.out, TransferItems(HeaderTransfers(f)), EventItems(HeaderEvents(f)));
  }

  lemma {:induction false} WalkIsPrinted(t: Node, w: Walk) returns (f: Frame)
    requires w.ok && WalkTree(t, w).ok
    ensures Accounts(f, t, w, WalkTree(t, w))
    decreases t, 1
  {
    var after := WalkTree(t, w);
    if (w.events == [] && w.transfers == []) || t.kind.StaticCall? {
      f := Silent(t);
    } else {
      var contract := ContractOf(t.kind, t.from, t.to, t.self);
      var entered := TakeHeader(t, w);
      var drained := Drain(contract, entered);
      var head := DrainTakes(contract, entered);
      DrainStops(contract, entered);
      var subs := WalkCallsArePrinted(t.calls, contract, drained);
      f := Open(t.kind, t.from, t.to, t.value, t.self,
                if Pays(t.kind, t.value) then w.transfers[0].token else 0,
                if IsCreate(t.kind) then w.events[0].payload else 0,
                head, subs);
      TakeHeaderTakes(f, t, w);
      OpenAccounts(f, t, w, entered, drained, after);
    }
  }

  /** A frame's header and first block, and what accounts for its calls, account for the frame. */
  lemma OpenAccounts(f: Frame, t: Node, w: Walk, entered: Walk, drained: Walk, after: Walk)
    requires f.Open? && Enters(f.kind)
    requires t == Node(f.kind, f.from, f.to, f.value, f.self, EraseSubs(f.subs))
    requires var contract := ContractOf(f.kind, f.from, f.to, f.self);
             && AllAt(contract, f.head) && Stops(contract, drained.events)
             && AccountsSubs(f.subs, t.calls, contract, drained, after)
    requires entered.out == w.out + Header(f) && w.events == HeaderEvents(f) + entered.events
    requires w.transfers == HeaderTransfers(f) + entered.transfers
    requires drained.out == entered.out + EventItems(f.head) && entered.events == f.head + drained.events
    requires drained.transfers == entered.transfers
    ensures Accounts(f, t, w, after)
  {
    Assoc(HeaderEvents(f), f.head + EventsInSubs(f.subs), after.events);
    Assoc(f.head, EventsInSubs(f.subs), after.events);
    Assoc(HeaderTransfers(f), TransfersInSubs(f.subs), after.transfers);
    Assoc(w.out, Header(f), EventItems(f.head));
    Assoc(w.out, Header(f) + EventItems(f.head), PrintSubs(f.subs));
  }

  lemma {:induction false} WalkCallsArePrinted(calls: seq<Node>, contract: Address, w: Walk) returns (subs: seq<Sub>)
    requires w.ok && WalkCalls(calls, contract, w).ok
    requires Stops(contract, w.events)
    ensures AccountsSubs(subs, calls, contract, w, WalkCalls(calls, contract, w))
    decreases calls, 0
  {
    var after := WalkCalls(calls, contract, w);
    if calls == [] {
      subs := [];
    } else {
      var back := WalkTree(calls[0], w);
      var frame := WalkIsPrinted(calls[0], w);
      var block := DrainTakes(contract, back);
      DrainStops(contract, back);
      var drained := Drain(contract, back);
      assert after == WalkCalls(calls[1..], contract, drained);
      var rest := WalkCallsArePrinted(calls[1..], contract, drained);
      subs := [Sub(frame, block)] + rest;
      ConsAccounts(frame, block, rest, calls, contract, w, back, after);
    }
  }

  lemma ConsAccounts(frame: Frame, block: seq<Event>, rest: seq<Sub>, calls: seq<Node>, contract: Address,
                     before: Walk, back: Walk, after: Walk)
    requires calls != [] && AllAt(contract, block) && Accounts(frame, calls[0], before, back)
    requires back.events == block + (EventsInSubs(rest) + after.events)
    requires back.transfers == TransfersInSubs(rest) + after.transfers
    requires after.out == back.out + EventItems(block) + PrintSubs(rest)
    requires EraseSubs(rest) == calls[1..] && WellFormedSubs(rest, contract)
    requires SeparatedSubs(rest, contract, after.events, after.transfers)
    requires Stops(contract, EventsInSubs(rest) + after.events)
    ensures AccountsSubs([Sub(frame, block)] + rest, calls, contract, before, after)
  {
    var subs := [Sub(frame, block)] + rest;
    assert subs[0].frame == frame && subs[0].after == block && subs[1..] == rest;
    assert calls == [calls[0]] + calls[1..];
    Assoc(EventsIn(frame), block + EventsInSubs(rest), after.events);
    Assoc(block, EventsInSubs(rest), after.events);
    Assoc(TransfersIn(frame), TransfersInSubs(rest), after.transfers);
    Assoc(before.out, Print(frame), EventItems(block));
    Assoc(before.out, Print(frame) + EventItems(block), PrintSubs(rest));
  }

  // ---------------------------------------------------------------------------
  // Main results
  // ---------------------------------------------------------------------------

  /** `items` is what some separated annotation of the call tree prints. */
  ghost predicate Explains(t: Node, items: seq<LogItem>) {
    exists f: Frame :: Erase(f) == t && WellFormed(f) && Separated(f, [], []) && Print(f) == items
  }

  /** Round trip: erase the annotation, split the printed list into its two projections, and the walk
      puts the list together again. */
  lemma RoundTrip(f: Frame)
    requires WellFormed(f) && Separated(f, [], [])
    ensures NewIterator(Erase(f), EventsOf(Print(f)), TransfersOf(Print(f))) == Some(Print(f))
  {
    PrintProjects(f);
    var w := Walk(true, EventsIn(f), TransfersIn(f), []);
    assert w.events == EventsIn(f) + [] && w.transfers == TransfersIn(f) + [];
    WalkPrinted(f, w, Walk(true, [], [], Print(f)));
  }

  /** The walk returns a list exactly when the list has the two given projections and is what a
      separated annotation of the tree prints. */
  lemma IteratorCharacterised(t: Node, events: seq<Event>, transfers: seq<Transfer>, items: seq<LogItem>)
    ensures NewIterator(t, events, transfers) == Some(items)
       <==> EventsOf(items) == events && TransfersOf(items) == transfers && Explains(t, items)
  {
    if NewIterator(t, events, transfers) == Some(items) {
      var f := WalkIsPrinted(t, Walk(true, events, transfers, []));
      assert Print(f) == items;
      PrintProjects(f);
      assert events == EventsIn(f) && transfers == TransfersIn(f);
    }
    if EventsOf(items) == events && TransfersOf(items) == transfers && Explains(t, items) {
      var f: Frame :| Erase(f) == t && WellFormed(f) && Separated(f, [], []) && Print(f) == items;
      RoundTrip(f);
    }
  }

  /** The (sender, recipient, amount) of every paying frame in pre-order, static calls cut away. */
  function PayingFrames(t: Node): seq<(Address, Address, nat)>
    decreases t, 1
  {
    if t.kind.StaticCall? then []
    else (if Pays(t.kind, t.value) then [(t.from, t.to, t.value)] else []) + PayingFramesIn(t.calls)
  }

  function PayingFramesIn(calls: seq<Node>): seq<(Address, Address, nat)>
    decreases calls, 0
  {
    if calls == [] then [] else PayingFrames(calls[0]) + PayingFramesIn(calls[1..])
  }

  function Payments(transfers: seq<Transfer>): seq<(Address, Address, nat)> {
    if transfers == [] then []
    else [(transfers[0].sender, transfers[0].recipient, transfers[0].amount)] + Payments(transfers[1..])
  }

  lemma {:induction false} PaymentsAppend(a: seq<Transfer>, b: seq<Transfer>)
    ensures Payments(a + b) == Payments(a) + Payments(b)
  {
    if a == [] {
      assert a + b == b;
    } else {
      assert (a + b)[1..] == a[1..] + b;
      PaymentsAppend(a[1..], b);
    }
  }

  /** The transfers of a successful walk are a prefix of the paying frames in pre-order. */
  lemma TransfersArePreorderPrefix(t: Node, events: seq<Event>, transfers: seq<Transfer>)
    requires NewIterator(t, events, transfers).Some?
    ensures Payments(transfers) <= PayingFrames(t)
  {
    var f := WalkIsPrinted(t, Walk(true, events, transfers, []));
    PrintedPayments(f, [], []);
    assert TransfersIn(f) == transfers;
  }

  lemma {:induction false} PrintedPayments(f: Frame, events: seq<Event>, transfers: seq<Transfer>)
    requires WellFormed(f) && Separated(f, events, transfers)
    ensures Payments(TransfersIn(f)) <= PayingFrames(Erase(f))
    ensures Payments(TransfersIn(f)) == PayingFrames(Erase(f)) || (events == [] && transfers == [])
    decreases f, 1
  {
    if f.Open? {
      PaymentsAppend(HeaderTransfers(f), TransfersInSubs(f.subs));
      PrintedPaymentsIn(f.subs, ContractOf(f.kind, f.from, f.to, f.self), events, transfers);
    }
  }

  lemma {:induction false} PrintedPaymentsIn(subs: seq<Sub>, contract: Address, events: seq<Event>,
                                             transfers: seq<Transfer>)
    requires WellFormedSubs(subs, contract) && SeparatedSubs(subs, contract, events, transfers)
    ensures Payments(TransfersInSubs(subs)) <= PayingFramesIn(EraseSubs(subs))
    ensures Payments(TransfersInSubs(subs)) == PayingFramesIn(EraseSubs(subs)) || (events == [] && transfers == [])
    decreases subs, 0
  {
    if subs != [] {
      var frame, rest := subs[0].frame, subs[1..];
      var laterEvents := EventsInSubs(rest) + events;
      var laterTransfers := TransfersInSubs(rest) + transfers;
      PrintedPayments(frame, subs[0].after + laterEvents, laterTransfers);
      PrintedPaymentsIn(rest, contract, events, transfers);
      PaymentsAppend(TransfersIn(frame), TransfersInSubs(rest));
      assert EraseSubs(subs)[0] == Erase(frame) && EraseSubs(subs)[1..] == EraseSubs(rest);
    }
  }

  /** An annotation that is not separated can round-trip too, when another one of the same tree prints the same:
      contract 7 emits, calls contract 8 without paying, and emits again. */
  lemma AnotherAnnotationWillDo()
    ensures var first, second := Event(7, None, 1), Event(7, None, 2);
            var inner := Open(Call, 7, 8, 0, None, 0, 0, [], []);
            var f := Open(Call, 6, 7, 0, None, 0, 0, [first], [Sub(inner, [second])]);
            && WellFormed(f) && !Separated(f, [], [])
            && NewIterator(Erase(f), EventsOf(Print(f)), TransfersOf(Print(f))) == Some(Print(f))
  {
    var first, second := Event(7, None, 1), Event(7, None, 2);
    var inner := Open(Call, 7, 8, 0, None, 0, 0, [], []);
    PrintWithCall(first, [], second, [second], inner);
    PrintWithCall(first, [second], second, [], inner);
    var g := Open(Call, 6, 7, 0, None, 0, 0, [first, second], [Sub(inner, [])]);
    assert [first] + [second] == [first, second] && [first] + [] == [first];
    RoundTrip(g);
  }

  /** The second event may belong to the block before the call or to the one after it. */
  lemma PrintWithCall(first: Event, more: seq<Event>, second: Event, after: seq<Event>, inner: Frame)
    requires first.address == 7 && second.address == 7 && inner == Open(Call, 7, 8, 0, None, 0, 0, [], [])
    requires (more == [] && after == [second]) || (more == [second] && after == [])
    ensures var f := Open(Call, 6, 7, 0, None, 0, 0, [first] + more, [Sub(inner, after)]);
            && WellFormed(f) && (Separated(f, [], []) <==> after == [])
            && Print(f) == [EventItem(first), EventItem(second)]
            && Erase(f) == Node(Call, 6, 7, 0, None, [Node(Call, 7, 8, 0, None, [])])
  {
    var subs := [Sub(inner, after)];
    assert subs[1..] == [] && EraseSubs([]) == [];
    assert Print(inner) == [] && EventsIn(inner) == [] && TransfersIn(inner) == [];
    var none: seq<Event> := [];
    assert EventsInSubs(subs) == after && none + none == none && after + none == after;
    assert Stops(8, none) && Separated(inner, none, []);
    assert Separated(inner, none + (none + none), []);
    assert after == [] ==> SeparatedSubs(subs, 7, [], []);
    assert [second][1..] == [] && EventItems([second]) == [EventItem(second)];
    assert ([first] + more)[1..] == more && EventItems([first] + more) == [EventItem(first)] + EventItems(more);
    assert PrintSubs(subs) == EventItems(after);
    assert EraseSubs(subs) == [Erase(inner)];
  }

  /** Without separation the round trip fails: contract 7 emits, pays contract 8, and emits again. The
      walk yields the second event before the payment. */
  lemma UnseparatedRoundTripFails()
    ensures var first, second := Event(7, None, 1), Event(7, None, 2);
            var pay := Transfer(7, 8, 5, 0);
            var inner := Open(Call, 7, 8, 5, None, 0, 0, [], []);
            var f := Open(Call, 6, 7, 0, None, 0, 0, [first], [Sub(inner, [second])]);
            && WellFormed(f) && Print(f) == [EventItem(first), TransferItem(pay), EventItem(second)]
            && NewIterator(Erase(f), EventsOf(Print(f)), TransfersOf(Print(f)))
               == Some([EventItem(first), EventItem(second), TransferItem(pay)])
  {
    var first, second := Event(7, None, 1), Event(7, None, 2);
    var pay := Transfer(7, 8, 5, 0);
    var inner := Open(Call, 7, 8, 5, None, 0, 0, [], []);
    var subs := [Sub(inner, [second])];
    var f := Open(Call, 6, 7, 0, None, 0, 0, [first], subs);
    assert subs[0].frame == inner && subs[0].after == [second] && subs[1..] == [];
    assert WellFormed(inner) && WellFormedSubs(subs, 7);
    assert HeaderTransfers(inner) == [pay] && [pay][1..] == [];
    assert TransferItems([pay]) == [TransferItem(pay)];
    assert Print(inner) == [TransferItem(pay)] && EventsIn(inner) == [] && TransfersIn(inner) == [pay];
    assert EventsInSubs(subs) == [second] && TransfersInSubs(subs) == [pay];
    assert [second][1..] == [] && EventItems([second]) == [EventItem(second)];
    assert [first][1..] == [] && EventItems([first]) == [EventItem(first)];
    assert PrintSubs(subs) == [TransferItem(pay), EventItem(second)];
    PrintProjects(f);
    assert EventsIn(f) == [first, second] && TransfersIn(f) == [pay];
    WalkOnePayment(first, second, pay, Erase(inner));
    assert EraseSubs(subs) == [Erase(inner)];
  }

  lemma WalkOnePayment(first: Event, second: Event, pay: Transfer, inner: Node)
    requires first.address == 7 && second.address == 7
    requires pay.sender == 7 && pay.recipient == 8 && pay.amount == 5
    requires inner == Node(Call, 7, 8, 5, None, [])
    ensures NewIterator(Node(Call, 6, 7, 0, None, [inner]), [first, second], [pay])
         == Some([EventItem(first), EventItem(second), TransferItem(pay)])
  {
    var t := Node(Call, 6, 7, 0, None, [inner]);
    var w := Walk(true, [first, second], [pay], []);
    var one := Walk(true, [second], [pay], [EventItem(first)]);
    var two := Walk(true, [], [pay], [EventItem(first), EventItem(second)]);
    var paid := Walk(true, [], [], [EventItem(first), EventItem(second), TransferItem(pay)]);
    assert w.events[1..] == [second] && w.out + [EventItem(first)] == one.out;
    assert one.events[1..] == [] && one.out + [EventItem(second)] == two.out;
    assert two.transfers[1..] == [] && two.out + [TransferItem(pay)] == paid.out;
    assert Drain(7, one) == two && Drain(7, w) == two;
    assert TakeHeader(inner, two) == paid;
    assert Drain(8, paid) == Drain(7, paid) == paid;
    assert WalkTree(inner, two) == paid;
    assert [inner][1..] == [];
    assert WalkCalls([inner], 7, two) == paid;
    assert WalkTree(t, w) == paid;
  }
}
