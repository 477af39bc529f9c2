/**
 The caller of the trace walker: it numbers the events and transfers of each clause with one
 `overallIndex`, and falls back to "transfers first" when the walk throws.
 */
module TxOutputs {
  import opened Common
  import opened LogReading
  import opened LogTraverser

  /** A clause of a transaction together with its output. `trace` is the node's answer to the trace
      request: None when the request fails. */
  datatype Clause = Clause(traceable: bool, trace: Option<Node>, events: seq<Event>, transfers: seq<Transfer>)

  datatype Indexed<T> = Indexed(data: T, overallIndex: nat)
  datatype Output = Output(events: seq<Indexed<Event>>, transfers: seq<Indexed<Transfer>>)

  /** The `tracer` variable is declared inside the loop but lives as long as the function: a clause
      without a trace of its own sees the last trace that was fetched. */
  function TracerAt(clauses: seq<Clause>, n: nat): Option<Node>
    requires n <= |clauses|
  {
    if n == 0 then None
    else if clauses[n - 1].traceable && clauses[n - 1].trace.Some? then clauses[n - 1].trace
    else TracerAt(clauses, n - 1)
  }

  /** The order a clause's logs are numbered in. */
  function ItemOrder(tracer: Option<Node>, events: seq<Event>, transfers: seq<Transfer>): seq<LogItem> {
    if events != [] && transfers != [] then
      match IterateMaybe(tracer, events, transfers)
      case Some(items) => items
      case None => TransferItems(transfers) + EventItems(events)
    else if events != [] then EventItems(events)
    else TransferItems(transfers)
  }

  /** The output after one more item. */
  function Pushed(o: Output, item: LogItem, index: nat): Output {
    if item.EventItem? then o.(events := o.events + [Indexed(item.event, index)])
    else o.(transfers := o.transfers + [Indexed(item.transfer, index)])
  }

  /** The output after numbering a whole list. */
  function Numbered(items: seq<LogItem>): Output {
    if items == [] then Output([], [])
    else
      var n := |items| - 1;
      Pushed(Numbered(items[..n]), items[n], n)
  }

  method PushAll(items: seq<LogItem>) returns (output: Output)
    ensures output == Numbered(items)
  {
    output := Output([], []);
    var logIndex := 0;
    while logIndex < |items|
      invariant logIndex <= |items|
      invariant output == Numbered(items[..logIndex])
    {
      assert items[..logIndex + 1][..logIndex] == items[..logIndex];
      match items[logIndex] {
        case EventItem(e) => output := output.(events := output.events + [Indexed(e, logIndex)]);
        case TransferItem(t) => output := output.(transfers := output.transfers + [Indexed(t, logIndex)]);
      }
      logIndex := logIndex + 1;
    }
    assert items[..logIndex] == items;
  }

  method NumberClause(tracer: Option<Node>, events: seq<Event>, transfers: seq<Transfer>) returns (output: Output)
    ensures output == Numbered(ItemOrder(tracer, events, transfers))
  {
    if events != [] && transfers != [] {
      var ok, items := Iterate(tracer, events, transfers);
      output := PushAll(items);
      if !ok {
        // what the failed walk had pushed is dropped
        output := PushAll(TransferItems(transfers) + EventItems(events));
      }
    } else if events != [] {
      output := PushAll(EventItems(events));
    } else {
      output := PushAll(TransferItems(transfers));
    }
  }

  /** The output of one clause, with the tracer as it stands by then. */
  function OutputOf(clauses: seq<Clause>, i: nat): Output
    requires i < |clauses|
  {
    Numbered(ItemOrder(TracerAt(clauses, i + 1), clauses[i].events, clauses[i].transfers))
  }

  method GetTxOutputs(clauses: seq<Clause>) returns (outputs: seq<Output>, traces: seq<(Node, nat)>)
    ensures |outputs| == |clauses| && forall i :: 0 <= i < |clauses| ==> outputs[i] == OutputOf(clauses, i)
    ensures forall i :: 0 <= i < |clauses| ==> IsOrdered(clauses, i, outputs[i])
    ensures AreFetched(clauses, |clauses|, traces)
  {
    outputs, traces := [], [];
    var tracer: Option<Node> := None;
    for i := 0 to |clauses|
      invariant |outputs| == i && forall k :: 0 <= k < i ==> outputs[k] == OutputOf(clauses, k)
      invariant AreFetched(clauses, i, traces) && tracer == TracerAt(clauses, i)
    {
      tracer, traces := FetchTrace(clauses, i, tracer, traces);
      outputs := PushOutput(clauses, i, tracer, outputs);
    }
    forall i | 0 <= i < |clauses|
      ensures IsOrdered(clauses, i, outputs[i])
    {
      OutputIsOrdered(clauses, i);
    }
  }

  /** The tracer variable keeps its value when no trace is fetched. */
  method FetchTrace(clauses: seq<Clause>, i: nat, before: Option<Node>, fetched: seq<(Node, nat)>)
    returns (tracer: Option<Node>, traces: seq<(Node, nat)>)
    requires i < |clauses| && before == TracerAt(clauses, i) && AreFetched(clauses, i, fetched)
    ensures tracer == TracerAt(clauses, i + 1) && AreFetched(clauses, i + 1, traces)
  {
    FetchedGrow(clauses, i, fetched);
    tracer, traces := before, fetched;
    var o := clauses[i];
    if o.traceable && o.trace.Some? {
      tracer := o.trace;
      traces := traces + [(o.trace.value, i)];
    }
  }

  method PushOutput(clauses: seq<Clause>, i: nat, tracer: Option<Node>, outputs: seq<Output>) returns (r: seq<Output>)
    requires i < |clauses| && tracer == TracerAt(clauses, i + 1)
    ensures r == outputs + [OutputOf(clauses, i)]
  {
    var output := NumberClause(tracer, clauses[i].events, clauses[i].transfers);
    r := outputs + [output];
  }

  // ---------------------------------------------------------------------------
  // What the numbering promises
  // ---------------------------------------------------------------------------

  function Data<T>(s: seq<Indexed<T>>): seq<T> {
    if s == [] then [] else Data(s[..|s| - 1]) + [s[|s| - 1].data]
  }

  ghost function IndexSet<T>(s: seq<Indexed<T>>): set<nat> {
    if s == [] then {} else IndexSet(s[..|s| - 1]) + {s[|s| - 1].overallIndex}
  }

  /** The indexes rise, and stay below `bound`. */
  predicate Rising<T>(s: seq<Indexed<T>>, bound: nat) {
    s != [] ==> s[|s| - 1].overallIndex < bound && Rising(s[..|s| - 1], s[|s| - 1].overallIndex)
  }

  ghost function Below(n: nat): (r: set<nat>)
    ensures forall k :: k in r <==> 0 <= k < n
  {
    if n == 0 then {} else Below(n - 1) + {n - 1}
  }

  /** The indexes rise within each list, no index is used in both, and together they are 0 .. n-1. */
  ghost predicate Share<T, U>(a: seq<Indexed<T>>, b: seq<Indexed<U>>, n: nat) {
    && Rising(a, n) && Rising(b, n)
    && IndexSet(a) !! IndexSet(b) && IndexSet(a) + IndexSet(b) == Below(n)
  }

  /** Both lists keep their contents and order, and share the indexes 0 .. n-1. */
  ghost predicate WellIndexed(o: Output, events: seq<Event>, transfers: seq<Transfer>) {
    && Data(o.events) == events && Data(o.transfers) == transfers
    && Share(o.events, o.transfers, |events| + |transfers|)
  }

  /** Reading both lists by index gives `items`. */
  ghost predicate Merged(o: Output, items: seq<LogItem>) {
    && (forall x :: x in o.events ==> x.overallIndex < |items| && items[x.overallIndex] == EventItem(x.data))
    && (forall x :: x in o.transfers ==> x.overallIndex < |items| && items[x.overallIndex] == TransferItem(x.data))
  }

  /** The main result: for any tracer, and whether or not the walk throws, the numbering of a clause is
      a bijection onto 0 .. n-1 that keeps both lists and follows the chosen order. */
  lemma OutputIsWellIndexed(tracer: Option<Node>, events: seq<Event>, transfers: seq<Transfer>)
    ensures var order := ItemOrder(tracer, events, transfers);
            WellIndexed(Numbered(order), events, transfers) && Merged(Numbered(order), order)
  {
    var order := ItemOrder(tracer, events, transfers);
    ItemOrderKeepsLists(tracer, events, transfers);
    NumberingIsBijective(order);
    NumberingMerges(order);
  }

  /** Whatever the tracer, the order holds exactly the clause's events and its transfers. */
  lemma ItemOrderKeepsLists(tracer: Option<Node>, events: seq<Event>, transfers: seq<Transfer>)
    ensures EventsOf(ItemOrder(tracer, events, transfers)) == events
    ensures TransfersOf(ItemOrder(tracer, events, transfers)) == transfers
  {
    ProjectEventItems(events);
    ProjectTransferItems(transfers);
    if events != [] && transfers != [] {
      match IterateMaybe(tracer, events, transfers)
      case Some(items) => IteratorCharacterised(tracer.value, events, transfers, items);
      case None =>
        EventsOfAppend(TransferItems(transfers), EventItems(events));
        TransfersOfAppend(TransferItems(transfers), EventItems(events));
    }
  }

  lemma {:induction false} NumberingIsBijective(items: seq<LogItem>)
    ensures WellIndexed(Numbered(items), EventsOf(items), TransfersOf(items))
    ensures |EventsOf(items)| + |TransfersOf(items)| == |items|
  {
    if items == [] {
      NothingIsWellIndexed();
    } else {
      var front, last := items[..|items| - 1], items[|items| - 1];
      assert items == front + [last];
      NumberingIsBijective(front);
      ProjectPush(front, last);
      NumberedPush(front, last);
      PushKeepsIndexed(Numbered(front), last, EventsOf(front), TransfersOf(front),
                       Numbered(items), EventsOf(items), TransfersOf(items));
    }
  }

  lemma NothingIsWellIndexed()
    ensures WellIndexed(Output([], []), [], [])
  {
  }

  lemma NumberedPush(front: seq<LogItem>, last: LogItem)
    ensures Numbered(front + [last]) == Pushed(Numbered(front), last, |front|)
  {
    assert (front + [last])[..|front|] == front;
  }

  lemma {:induction false} NumberingMerges(items: seq<LogItem>)
    ensures Merged(Numbered(items), items)
  {
    if items != [] {
      NumberingMerges(items[..|items| - 1]);
    }
  }

  lemma ProjectPush(items: seq<LogItem>, item: LogItem)
    ensures EventsOf(items + [item]) == if item.EventItem? then EventsOf(items) + [item.event] else EventsOf(items)
    ensures TransfersOf(items + [item])
         == if item.TransferItem? then TransfersOf(items) + [item.transfer] else TransfersOf(items)
  {
    EventsOfAppend(items, [item]);
    TransfersOfAppend(items, [item]);
  }

  lemma PushKeepsList<T>(s: seq<Indexed<T>>, x: Indexed<T>)
    ensures Data(s + [x]) == Data(s) + [x.data]
    ensures IndexSet(s + [x]) == IndexSet(s) + {x.overallIndex}
    ensures Rising(s, x.overallIndex) ==> Rising(s + [x], x.overallIndex + 1)
  {
    assert (s + [x])[..|s|] == s;
  }

  /** One item more: `o`, `events` and `transfers` become `o'`, `events'` and `transfers'`. */
  lemma PushKeepsIndexed(o: Output, item: LogItem, events: seq<Event>, transfers: seq<Transfer>,
                         o': Output, events': seq<Event>, transfers': seq<Transfer>)
    requires WellIndexed(o, events, transfers)
    requires o' == Pushed(o, item, |events| + |transfers|)
    requires events' == if item.EventItem? then events + [item.event] else events
    requires transfers' == if item.TransferItem? then transfers + [item.transfer] else transfers
    ensures WellIndexed(o', events', transfers')
    ensures |events'| + |transfers'| == |events| + |transfers| + 1
  {
    if item.EventItem? {
      PushEvent(o, item.event, events, transfers);
    } else {
      PushTransfer(o, item.transfer, events, transfers);
    }
  }

  lemma PushEvent(o: Output, e: Event, events: seq<Event>, transfers: seq<Transfer>)
    requires WellIndexed(o, events, transfers)
    ensures WellIndexed(Output(o.events + [Indexed(e, |events| + |transfers|)], o.transfers), events + [e], transfers)
  {
    PushOne(o.events, o.transfers, Indexed(e, |events| + |transfers|), |events| + |transfers|);
  }

  lemma PushTransfer(o: Output, t: Transfer, events: seq<Event>, transfers: seq<Transfer>)
    requires WellIndexed(o, events, transfers)
    ensures WellIndexed(Output(o.events, o.transfers + [Indexed(t, |events| + |transfers|)]), events, transfers + [t])
  {
    var n := |events| + |transfers|;
    ShareIsSymmetric(o.events, o.transfers, n);
    PushOne(o.transfers, o.events, Indexed(t, n), n);
    ShareIsSymmetric(o.transfers + [Indexed(t, n)], o.events, n + 1);
    assert Share(o.events, o.transfers + [Indexed(t, n)], |events| + |transfers + [t]|);
  }

  lemma ShareIsSymmetric<T, U>(a: seq<Indexed<T>>, b: seq<Indexed<U>>, n: nat)
    requires Share(a, b, n)
    ensures Share(b, a, n)
  {
  }

  /** The next index goes to the first list. */
  lemma PushOne<T, U>(a: seq<Indexed<T>>, b: seq<Indexed<U>>, x: Indexed<T>, n: nat)
    requires Share(a, b, n) && x.overallIndex == n
    ensures Share(a + [x], b, n + 1) && Data(a + [x]) == Data(a) + [x.data]
  {
    PushKeepsList(a, x);
    NextIndexIsNew(IndexSet(a), IndexSet(b), n);
    RisingBelow(b, n, n + 1);
  }

  lemma NextIndexIsNew(used: set<nat>, others: set<nat>, n: nat)
    requires used !! others && used + others == Below(n)
    ensures (used + {n}) !! others && (used + {n}) + others == Below(n + 1)
  {
  }

  lemma RisingBelow<T>(s: seq<Indexed<T>>, bound: nat, larger: nat)
    requires Rising(s, bound) && bound <= larger
    ensures Rising(s, larger)
  {
  }

  // ---------------------------------------------------------------------------
  // What a clause's order is, whatever computes it
  // ---------------------------------------------------------------------------

  predicate Fetches(o: Clause) {
    o.traceable && o.trace.Some?
  }

  /** The trace the clause sees: its own if it has fetched one, else that of the nearest earlier clause that has. */
  ghost predicate Sees(clauses: seq<Clause>, i: nat, t: Node)
    requires i < |clauses|
  {
    exists j: nat :: j <= i && FetchedAt(clauses, j, i, t)
  }

  ghost predicate FetchedAt(clauses: seq<Clause>, j: nat, i: nat, t: Node)
    requires j <= i < |clauses|
  {
    clauses[j].traceable && clauses[j].trace == Some(t) && forall k :: j < k <= i ==> !Fetches(clauses[k])
  }

  /** The trace the clause sees reads the list, and the list consists of the clause's logs. */
  ghost predicate TraceReads(clauses: seq<Clause>, i: nat, t: Node, items: seq<LogItem>)
    requires i < |clauses|
  {
    && Sees(clauses, i, t) && EventsOf(items) == clauses[i].events && TransfersOf(items) == clauses[i].transfers
    && ReadTree(t, items) == Some([])
  }

  /** Reading the output by index gives the list: every index from 0 on is used once. */
  ghost predicate ReadsAs(o: Output, items: seq<LogItem>) {
    WellIndexed(o, EventsOf(items), TransfersOf(items)) && Merged(o, items)
  }

  /** The transfers are numbered first, then the events. */
  predicate TransfersFirst(o: Output, events: seq<Event>, transfers: seq<Transfer>) {
    && |o.transfers| == |transfers| && |o.events| == |events|
    && (forall k :: 0 <= k < |transfers| ==> o.transfers[k] == Indexed(transfers[k], k))
    && (forall k :: 0 <= k < |events| ==> o.events[k] == Indexed(events[k], |transfers| + k))
  }

  /** A clause with events and transfers is numbered as the trace it sees reads them, and when no trace reads them, or
      when one of the lists is empty, with the transfers first. */
  ghost predicate IsOrdered(clauses: seq<Clause>, i: nat, o: Output)
    requires i < |clauses|
  {
    var events, transfers := clauses[i].events, clauses[i].transfers;
    if events != [] && transfers != [] then
      && (forall t, items :: TraceReads(clauses, i, t, items) ==> ReadsAs(o, items))
      && ((forall t, items :: !TraceReads(clauses, i, t, items)) ==> TransfersFirst(o, events, transfers))
    else TransfersFirst(o, events, transfers)
  }

  /** The traces are those fetched for the first n clauses, each with its clause, in the order of the clauses. */
  ghost predicate AreFetched(clauses: seq<Clause>, n: nat, traces: seq<(Node, nat)>)
    requires n <= |clauses|
  {
    && (forall x :: x in traces ==> x.1 < n && clauses[x.1].traceable && clauses[x.1].trace == Some(x.0))
    && (forall k: nat :: k < n && Fetches(clauses[k]) ==> (clauses[k].trace.value, k) in traces)
    && (forall i, j :: 0 <= i < j < |traces| ==> traces[i].1 < traces[j].1)
  }

  lemma FetchedGrow(clauses: seq<Clause>, n: nat, traces: seq<(Node, nat)>)
    requires n < |clauses| && AreFetched(clauses, n, traces)
    ensures AreFetched(clauses, n + 1,
                       if Fetches(clauses[n]) then traces + [(clauses[n].trace.value, n)] else traces)
  {
    if Fetches(clauses[n]) {
      var more := traces + [(clauses[n].trace.value, n)];
      forall i, j | 0 <= i < j < |more|
        ensures more[i].1 < more[j].1
      {
        assert traces[i] in traces;
      }
    }
  }

  /** The tracer variable holds the trace that the clause sees. */
  lemma {:induction false} TracerIsSeen(clauses: seq<Clause>, n: nat, i: nat, t: Node)
    requires n <= i + 1 && i < |clauses| && forall k :: n <= k <= i ==> !Fetches(clauses[k])
    ensures Sees(clauses, i, t) <==> TracerAt(clauses, n) == Some(t)
  {
    if n > 0 && !Fetches(clauses[n - 1]) {
      TracerIsSeen(clauses, n - 1, i, t);
    } else if n > 0 && clauses[n - 1].trace == Some(t) {
      assert FetchedAt(clauses, n - 1, i, t);
    }
  }

  lemma {:induction false} NumberedTransfers(transfers: seq<Transfer>)
    ensures TransfersFirst(Numbered(TransferItems(transfers)), [], transfers)
  {
    if transfers != [] {
      var front, last := transfers[..|transfers| - 1], transfers[|transfers| - 1];
      NumberedTransfers(front);
      TransferItemsPush(front, last);
      assert transfers == front + [last];
      NumberedPush(TransferItems(front), TransferItem(last));
    }
  }

  lemma {:induction false} TransferItemsPush(transfers: seq<Transfer>, t: Transfer)
    ensures TransferItems(transfers + [t]) == TransferItems(transfers) + [TransferItem(t)]
    ensures |TransferItems(transfers)| == |transfers|
  {
    if transfers == [] {
      assert [t][1..] == [];
    } else {
      TransferItemsPush(transfers[1..], t);
      assert (transfers + [t])[1..] == transfers[1..] + [t];
    }
  }

  lemma {:induction false} EventItemsPush(events: seq<Event>, e: Event)
    ensures EventItems(events + [e]) == EventItems(events) + [EventItem(e)]
    ensures |EventItems(events)| == |events|
  {
    if events == [] {
      assert [e][1..] == [];
    } else {
      EventItemsPush(events[1..], e);
      assert (events + [e])[1..] == events[1..] + [e];
    }
  }

  lemma {:induction false} NumberedTransfersFirst(events: seq<Event>, transfers: seq<Transfer>)
    ensures TransfersFirst(Numbered(TransferItems(transfers) + EventItems(events)), events, transfers)
  {
    var items := TransferItems(transfers);
    if events == [] {
      assert items + EventItems(events) == items;
      NumberedTransfers(transfers);
    } else {
      var front, last := events[..|events| - 1], events[|events| - 1];
      NumberedTransfersFirst(front, transfers);
      EventItemsPush(front, last);
      ItemsLength(transfers);
      assert events == front + [last];
      Assoc(items, EventItems(front), [EventItem(last)]);
      NumberedPush(items + EventItems(front), EventItem(last));
    }
  }

  lemma {:induction false} ItemsLength(transfers: seq<Transfer>)
    ensures |TransferItems(transfers)| == |transfers|
  {
    if transfers != [] {
      ItemsLength(transfers[1..]);
    }
  }

  lemma ListReadsAs(items: seq<LogItem>)
    ensures ReadsAs(Numbered(items), items)
  {
    NumberingIsBijective(items);
    NumberingMerges(items);
  }

  lemma OutputIsOrdered(clauses: seq<Clause>, i: nat)
    requires i < |clauses|
    ensures IsOrdered(clauses, i, OutputOf(clauses, i))
  {
    var events, transfers, tracer := clauses[i].events, clauses[i].transfers, TracerAt(clauses, i + 1);
    NumberedTransfersFirst(events, transfers);
    if events != [] && transfers != [] {
      forall t, items | TraceReads(clauses, i, t, items)
        ensures ReadsAs(OutputOf(clauses, i), items)
      {
        TracerIsSeen(clauses, i + 1, i, t);
        IteratorReads(t, events, transfers, items);
        ListReadsAs(items);
      }
      if tracer.Some? && IterateMaybe(tracer, events, transfers).Some? {
        var t, items := tracer.value, IterateMaybe(tracer, events, transfers).value;
        TracerIsSeen(clauses, i + 1, i, t);
        IteratorReads(t, events, transfers, items);
        assert TraceReads(clauses, i, t, items);
      }
    } else {
      assert TransferItems(transfers) + [] == TransferItems(transfers) && [] + EventItems(events) == EventItems(events);
    }
  }
}
