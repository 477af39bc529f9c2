/**
 Executions as the machine runs them, and what the log walk makes of them. A running contract is handed down the call
 tree: it is what emits, and it is the sender of what a frame pays. Nothing here is taken from the walk but the shape of
 the trace; the walk restores every such execution in which a frame does not emit again before its next event is due.
 */
module LogExecutions {
  import opened Common
  import opened LogTraverser

  // ---------------------------------------------------------------------------
  // Executions
  // ---------------------------------------------------------------------------

  /** An event that the running contract emits. */
  datatype Log = Log(newMaster: Option<Address>, payload: nat)

  /** How a frame is entered. `arg` is what the input of a frame decodes to as an address, where that is of no
      consequence; `data` identifies the $Master event of a creation. */
  datatype Entry =
    | Calls(to: Address, value: nat, arg: Option<Address>)
    | CallsPrototype(self: Address, value: nat)
    | Creates(two: bool, contract: Address, value: nat, arg: Option<Address>, data: nat)
    | Delegates(code: Address, value: nat, arg: Option<Address>)
    | CallsCode(code: Address, value: nat, arg: Option<Address>)

  /** A frame: what it logs before its first call and after each call. A static call logs nothing. */
  datatype Exec =
    | Static(to: Address, value: nat, arg: Option<Address>, inner: seq<Node>)
    | Runs(entry: Entry, token: nat, head: seq<Log>, calls: seq<Inner>)
  datatype Inner = Inner(exec: Exec, after: seq<Log>)

  /** A call to the Prototype contract that decodes an address is one of its own kind. */
  predicate EntryOk(e: Entry) {
    e.Calls? && e.to == PROTOTYPE_ADDRESS ==> e.arg.None?
  }

  predicate ExecOk(x: Exec)
    decreases x, 1
  {
    x.Runs? ==> EntryOk(x.entry) && CallsOk(x.calls)
  }

  predicate CallsOk(calls: seq<Inner>)
    decreases calls, 0
  {
    calls != [] ==> ExecOk(calls[0].exec) && CallsOk(calls[1..])
  }

  /** The contract that runs, when `caller` runs outside: delegated code and called code run as the caller. */
  function Runner(e: Entry, caller: Address): Address {
    match e
    case Calls(to, _, _) => to
    case CallsPrototype(self, _) => self
    case Creates(_, contract, _, _, _) => contract
    case Delegates(_, _, _) => caller
    case CallsCode(_, _, _) => caller
  }

  /** What entering the frame logs: calls and creations pay what they carry, delegated and called code pays nothing, and
      a creation then names its master. */
  function Entering(e: Entry, caller: Address, token: nat): seq<LogItem> {
    match e
    case Calls(to, value, _) => if value == 0 then [] else [TransferItem(Transfer(caller, to, value, token))]
    case CallsPrototype(_, value) =>
      if value == 0 then [] else [TransferItem(Transfer(caller, PROTOTYPE_ADDRESS, value, token))]
    case Creates(_, contract, value, _, data) =>
      (if value == 0 then [] else [TransferItem(Transfer(caller, contract, value, token))])
      + [EventItem(Event(contract, Some(caller), data))]
    case Delegates(_, _, _) => []
    case CallsCode(_, _, _) => []
  }

  function Emitted(logs: seq<Log>, runner: Address): seq<LogItem> {
    if logs == [] then []
    else [EventItem(Event(runner, logs[0].newMaster, logs[0].payload))] + Emitted(logs[1..], runner)
  }

  /** Everything the frame logs, in order. */
  function Logged(x: Exec, caller: Address): seq<LogItem>
    decreases x, 1
  {
    match x
    case Static(_, _, _, _) => []
    case Runs(e, token, head, calls) =>
      Entering(e, caller, token) + Emitted(head, Runner(e, caller)) + LoggedIn(calls, Runner(e, caller))
  }

  function LoggedIn(calls: seq<Inner>, runner: Address): seq<LogItem>
    decreases calls, 0
  {
    if calls == [] then []
    else Logged(calls[0].exec, runner) + Emitted(calls[0].after, runner) + LoggedIn(calls[1..], runner)
  }

  /** The frame as the tracer reports it. */
  function Traced(x: Exec, caller: Address): Node
    decreases x, 1
  {
    match x
    case Static(to, value, arg, inner) => Node(StaticCall, caller, to, value, arg, inner)
    case Runs(e, _, _, calls) =>
      var inner := TracedIn(calls, Runner(e, caller));
      match e
      case Calls(to, value, arg) => Node(Call, caller, to, value, arg, inner)
      case CallsPrototype(self, value) => Node(Call, caller, PROTOTYPE_ADDRESS, value, Some(self), inner)
      case Creates(two, contract, value, arg, _) =>
        Node(if two then Create2 else Create, caller, contract, value, arg, inner)
      case Delegates(code, value, arg) => Node(DelegateCall, caller, code, value, arg, inner)
      case CallsCode(code, value, arg) => Node(CallCode, caller, code, value, arg, inner)
  }

  function TracedIn(calls: seq<Inner>, runner: Address): seq<Node>
    decreases calls, 0
  {
    if calls == [] then [] else [Traced(calls[0].exec, runner)] + TracedIn(calls[1..], runner)
  }

  // ---------------------------------------------------------------------------
  // When the walk can tell the blocks apart
  // ---------------------------------------------------------------------------

  /** The next event of the list, whatever payments come before it, is of another contract. */
  predicate NextIsOther(runner: Address, items: seq<LogItem>) {
    items != [] ==>
      if items[0].EventItem? then items[0].event.address != runner else NextIsOther(runner, items[1..])
  }

  /** With `later` still to be logged after the frame: after every block the next event is of another contract. */
  predicate Apart(x: Exec, caller: Address, later: seq<LogItem>)
    decreases x, 1
  {
    x.Runs? ==>
      var runner := Runner(x.entry, caller);
      NextIsOther(runner, LoggedIn(x.calls, runner) + later) && ApartIn(x.calls, runner, later)
  }

  predicate ApartIn(calls: seq<Inner>, runner: Address, later: seq<LogItem>)
    decreases calls, 0
  {
    calls != [] ==>
      var rest := LoggedIn(calls[1..], runner) + later;
      && Apart(calls[0].exec, runner, Emitted(calls[0].after, runner) + rest)
      && NextIsOther(runner, rest)
      && ApartIn(calls[1..], runner, later)
  }

  // ---------------------------------------------------------------------------
  // The annotation that an execution is
  // ---------------------------------------------------------------------------

  function Stamped(logs: seq<Log>, runner: Address): seq<Event> {
    if logs == [] then [] else [Event(runner, logs[0].newMaster, logs[0].payload)] + Stamped(logs[1..], runner)
  }

  function Annotated(x: Exec, caller: Address): Frame
    decreases x, 1
  {
    match x
    case Static(_, _, _, _) => Silent(Traced(x, caller))
    case Runs(e, token, head, calls) =>
      var t := Traced(x, caller);
      Open(t.kind, t.from, t.to, t.value, t.self, token, if e.Creates? then e.data else 0,
           Stamped(head, Runner(e, caller)), AnnotatedIn(calls, Runner(e, caller)))
  }

  function AnnotatedIn(calls: seq<Inner>, runner: Address): seq<Sub>
    decreases calls, 0
  {
    if calls == [] then []
    else [Sub(Annotated(calls[0].exec, runner), Stamped(calls[0].after, runner))] + AnnotatedIn(calls[1..], runner)
  }

  lemma {:induction false} StampedIsEmitted(logs: seq<Log>, runner: Address)
    ensures EventItems(Stamped(logs, runner)) == Emitted(logs, runner) && AllAt(runner, Stamped(logs, runner))
  {
    if logs != [] {
      StampedIsEmitted(logs[1..], runner);
      assert Stamped(logs, runner)[1..] == Stamped(logs[1..], runner);
    }
  }

  lemma EnteringIsHeader(x: Exec, caller: Address)
    requires x.Runs?
    ensures Header(Annotated(x, caller)) == Entering(x.entry, caller, x.token)
  {
    var f := Annotated(x, caller);
    OneTransferItem(HeaderTransfers(f));
    OneEventItem(HeaderEvents(f));
    assert TransferItems(HeaderTransfers(f)) + [] == TransferItems(HeaderTransfers(f));
  }

  lemma OneTransferItem(transfers: seq<Transfer>)
    requires |transfers| <= 1
    ensures TransferItems(transfers) == if transfers == [] then [] else [TransferItem(transfers[0])]
  {
  }

  lemma OneEventItem(events: seq<Event>)
    requires |events| <= 1
    ensures EventItems(events) == if events == [] then [] else [EventItem(events[0])]
  {
  }

  /** The contract that the walk reckons with is the one that runs. */
  lemma RunnerIsContract(x: Exec, caller: Address)
    requires x.Runs? && EntryOk(x.entry)
    ensures var f := Annotated(x, caller);
            Enters(f.kind) && ContractOf(f.kind, f.from, f.to, f.self) == Runner(x.entry, caller)
  {
  }

  lemma {:induction false} AnnotationPrints(x: Exec, caller: Address)
    ensures Print(Annotated(x, caller)) == Logged(x, caller)
    ensures Erase(Annotated(x, caller)) == Traced(x, caller)
    decreases x, 1
  {
    if x.Runs? {
      EnteringIsHeader(x, caller);
      StampedIsEmitted(x.head, Runner(x.entry, caller));
      AnnotationsPrint(x.calls, Runner(x.entry, caller));
    }
  }

  lemma {:induction false} AnnotationsPrint(calls: seq<Inner>, runner: Address)
    ensures PrintSubs(AnnotatedIn(calls, runner)) == LoggedIn(calls, runner)
    ensures EraseSubs(AnnotatedIn(calls, runner)) == TracedIn(calls, runner)
    decreases calls, 0
  {
    if calls != [] {
      AnnotationPrints(calls[0].exec, runner);
      StampedIsEmitted(calls[0].after, runner);
      AnnotationsPrint(calls[1..], runner);
      assert AnnotatedIn(calls, runner)[1..] == AnnotatedIn(calls[1..], runner);
    }
  }

  lemma {:induction false} AnnotationIsWellFormed(x: Exec, caller: Address)
    requires ExecOk(x)
    ensures WellFormed(Annotated(x, caller))
    decreases x, 1
  {
    if x.Runs? {
      RunnerIsContract(x, caller);
      StampedIsEmitted(x.head, Runner(x.entry, caller));
      AnnotationsAreWellFormed(x.calls, Runner(x.entry, caller));
    }
  }

  lemma {:induction false} AnnotationsAreWellFormed(calls: seq<Inner>, runner: Address)
    requires CallsOk(calls)
    ensures WellFormedSubs(AnnotatedIn(calls, runner), runner)
    decreases calls, 0
  {
    if calls != [] {
      AnnotationIsWellFormed(calls[0].exec, runner);
      StampedIsEmitted(calls[0].after, runner);
      AnnotationsAreWellFormed(calls[1..], runner);
      assert AnnotatedIn(calls, runner)[1..] == AnnotatedIn(calls[1..], runner);
    }
  }

  lemma {:induction false} OtherStops(runner: Address, items: seq<LogItem>)
    ensures NextIsOther(runner, items) <==> Stops(runner, EventsOf(items))
  {
    if items != [] && items[0].TransferItem? {
      OtherStops(runner, items[1..]);
    }
  }

  /** The events of what is logged by calls, and later. */
  lemma EventsLogged(calls: seq<Inner>, runner: Address, later: seq<LogItem>)
    ensures EventsOf(LoggedIn(calls, runner) + later) == EventsInSubs(AnnotatedIn(calls, runner)) + EventsOf(later)
    ensures TransfersOf(LoggedIn(calls, runner) + later)
         == TransfersInSubs(AnnotatedIn(calls, runner)) + TransfersOf(later)
  {
    AnnotationsPrint(calls, runner);
    PrintSubsProjects(AnnotatedIn(calls, runner));
    EventsOfAppend(LoggedIn(calls, runner), later);
    TransfersOfAppend(LoggedIn(calls, runner), later);
  }

  lemma EventsEmitted(logs: seq<Log>, runner: Address, later: seq<LogItem>)
    ensures EventsOf(Emitted(logs, runner) + later) == Stamped(logs, runner) + EventsOf(later)
    ensures TransfersOf(Emitted(logs, runner) + later) == TransfersOf(later)
  {
    StampedIsEmitted(logs, runner);
    ProjectEventItems(Stamped(logs, runner));
    EventsOfAppend(Emitted(logs, runner), later);
    TransfersOfAppend(Emitted(logs, runner), later);
    assert [] + TransfersOf(later) == TransfersOf(later);
  }

  lemma {:induction false} ApartIsSeparated(x: Exec, caller: Address, later: seq<LogItem>)
    requires ExecOk(x) && Apart(x, caller, later)
    ensures Separated(Annotated(x, caller), EventsOf(later), TransfersOf(later))
    decreases x, 1
  {
    if x.Runs? {
      var runner := Runner(x.entry, caller);
      RunnerIsContract(x, caller);
      OtherStops(runner, LoggedIn(x.calls, runner) + later);
      EventsLogged(x.calls, runner, later);
      ApartAreSeparated(x.calls, runner, later);
    }
  }

  lemma {:induction false} ApartAreSeparated(calls: seq<Inner>, runner: Address, later: seq<LogItem>)
    requires CallsOk(calls) && ApartIn(calls, runner, later)
    ensures SeparatedSubs(AnnotatedIn(calls, runner), runner, EventsOf(later), TransfersOf(later))
    decreases calls, 0
  {
    if calls != [] {
      var rest := LoggedIn(calls[1..], runner) + later;
      EventsLogged(calls[1..], runner, later);
      EventsEmitted(calls[0].after, runner, rest);
      OtherStops(runner, rest);
      ApartIsSeparated(calls[0].exec, runner, Emitted(calls[0].after, runner) + rest);
      ApartAreSeparated(calls[1..], runner, later);
      assert AnnotatedIn(calls, runner)[1..] == AnnotatedIn(calls[1..], runner);
    }
  }

  // ---------------------------------------------------------------------------
  // Main results
  // ---------------------------------------------------------------------------

  /** The round trip for executions: split what was logged into events and transfers, and the walk over the reported
      trace puts it together again. */
  lemma ExecutionIsRestored(x: Exec, caller: Address)
    requires ExecOk(x) && Apart(x, caller, [])
    ensures NewIterator(Traced(x, caller), EventsOf(Logged(x, caller)), TransfersOf(Logged(x, caller)))
         == Some(Logged(x, caller))
  {
    AnnotationPrints(x, caller);
    AnnotationIsWellFormed(x, caller);
    ApartIsSeparated(x, caller, []);
    RoundTrip(Annotated(x, caller));
  }
}
