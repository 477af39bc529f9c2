/**
 The block reviewer next to the PoS importer: two processes over one database, interleaved at every
 read and write. The reviewer reads the importer's head, block rows and tx rows, processes the blocks
 that carry transactions one after another, and stores its own head after each.
 */
module Reviewer {
  import opened PosImport
  import opened PosTables

  const REVIEW_WINDOW := 1000

  /** The range of one round: `best` is the importer's head minus one when the round began. */
  datatype Round = Round(num: nat, end: nat)

  datatype ReviewPhase =
    | Stopped
    | Idle
    | Scanning(r: Round)
    | Processing(r: Round, blk: nat, txIndex: nat)
    | Processed(r: Round, blk: nat)
    | Nothing(r: Round)
    | EndFound(r: Round)

  /** `head` is the reviewer's row of the head table and `done` the log of completed processBlock calls.
      `lookupFailed` records a transaction that could not be found. */
  datatype Review = Review(head: nat, phase: ReviewPhase, done: seq<nat>, lookupFailed: bool)

  datatype System = System(pos: State, rev: Review)

  datatype ReviewStep =
    | Importer(step: Step)
    | Stop
    | Start
    | Fail
    | BeginReview
    | FindBlock(blk: nat)
    | FindNothing
    | FindEnd
    | SaveEnd
    | FindTx
    | FinishBlock
    | SaveHead

  predicate HasTxs(c: Chain, n: nat) {
    n < |c| && c[n].txs != []
  }

  /** What findBlockWithTxFrom(num) returns from the block table: the lowest row above `num` with
      transactions. */
  ghost predicate IsNextRow(c: Chain, rows: set<Row>, num: nat, blk: nat) {
    && blk > num && Row(Block, blk, 0) in rows && HasTxs(c, blk)
    && (forall n: nat :: num < n < blk && HasTxs(c, n) ==> Row(Block, n, 0) !in rows)
  }

  /** What findByHash finds in the tx table. */
  ghost predicate TxStored(rows: set<Row>, hash: nat) {
    exists r :: r in rows && r.table == Tx && r.id == hash
  }

  function LocalBest(pos: State): int {
    if pos.head.Some? then pos.head.value - 1 else 0
  }

  ghost predicate ReviewNext(c: Chain, s: System, t: System, step: ReviewStep)
    requires ValidChain(c)
  {
    var v := s.rev;
    match step
    case Importer(p) => NextStep(c, s.pos, t.pos, p) && t.rev == v
    case Stop => t == s.(rev := v.(phase := Stopped))
    case Start =>
      // beforeStart: at head 0 the genesis block must be there, or the process quits
      && v.phase.Stopped? && (v.head == 0 ==> Row(Block, 0, 0) in s.pos.rows)
      && t == s.(rev := v.(phase := Idle))
    case Fail => !v.phase.Stopped? && t == s.(rev := v.(phase := Idle))
    case BeginReview =>
      var best := LocalBest(s.pos);
      var end := if v.head + REVIEW_WINDOW > best then best else v.head + REVIEW_WINDOW;
      && v.phase.Idle? && v.head <= end
      && t == s.(rev := v.(phase := Scanning(Round(v.head, end))))
    case FindBlock(blk) =>
      && v.phase.Scanning? && IsNextRow(c, s.pos.rows, v.phase.r.num, blk) && blk <= v.phase.r.end
      && t == s.(rev := v.(phase := Processing(v.phase.r, blk, 0)))
    case FindNothing =>
      && v.phase.Scanning?
      && (forall blk: nat :: IsNextRow(c, s.pos.rows, v.phase.r.num, blk) ==> blk > v.phase.r.end)
      && t == s.(rev := v.(phase := Nothing(v.phase.r)))
    case FindEnd =>
      // without the row of the round's last block the process throws
      && v.phase.Nothing?
      && t == s.(rev := v.(phase := if Row(Block, v.phase.r.end, 0) in s.pos.rows then EndFound(v.phase.r) else Idle))
    case SaveEnd =>
      v.phase.EndFound? && t == s.(rev := v.(head := v.phase.r.end, phase := Idle))
    case FindTx =>
      && v.phase.Processing? && v.phase.blk < |c| && v.phase.txIndex < |c[v.phase.blk].txs|
      && (if TxStored(s.pos.rows, c[v.phase.blk].txs[v.phase.txIndex])
          then t == s.(rev := v.(phase := Processing(v.phase.r, v.phase.blk, v.phase.txIndex + 1)))
          else t == s.(rev := v.(phase := Idle, lookupFailed := true)))
    case FinishBlock =>
      && v.phase.Processing? && v.phase.blk < |c| && v.phase.txIndex == |c[v.phase.blk].txs|
      && t == s.(rev := v.(phase := Processed(v.phase.r, v.phase.blk), done := v.done + [v.phase.blk]))
    case SaveHead =>
      && v.phase.Processed?
      && t == s.(rev := v.(head := v.phase.blk, phase := Scanning(Round(v.phase.blk, v.phase.r.end))))
  }

  // ---------------------------------------------------------------------------
  // What should have been processed
  // ---------------------------------------------------------------------------

  /** The blocks with transactions in (start, head], ascending. */
  function TxBlocks(c: Chain, start: nat, head: nat): seq<nat> {
    if head <= start then []
    else if HasTxs(c, head) then TxBlocks(c, start, head - 1) + [head]
    else TxBlocks(c, start, head - 1)
  }

  /** A log without immediate repetitions. */
  function Once(log: seq<nat>): seq<nat> {
    if |log| < 2 then log
    else
      var front := Once(log[..|log| - 1]);
      if log[|log| - 1] == log[|log| - 2] then front else front + [log[|log| - 1]]
  }

  /** The next block with transactions after `head`. */
  ghost predicate IsNextTxBlock(c: Chain, head: nat, blk: nat) {
    blk > head && HasTxs(c, blk) && forall n: nat :: head < n < blk ==> !HasTxs(c, n)
  }

  /** The last completed block is above the stored head: its completion was logged, its head was not. */
  predicate Pending(v: Review) {
    v.done != [] && v.done[|v.done| - 1] > v.head
  }

  /** The log without repetitions is the list of blocks with transactions in (start, head], followed by
      the next such block when that one is pending. */
  ghost predicate LogOk(c: Chain, start: nat, v: Review) {
    && v.head >= start
    && if Pending(v) then
         var last := v.done[|v.done| - 1];
         IsNextTxBlock(c, v.head, last) && Once(v.done) == TxBlocks(c, start, v.head) + [last]
       else Once(v.done) == TxBlocks(c, start, v.head)
  }

  /** A round with blocks to review stays below the importer's head, and a pending block lies within it. Before
      the importer has a head there is only the round from 0 to 0. */
  ghost predicate RoundOk(v: Review, r: Round, posHead: int) {
    && r.num == v.head <= r.end && (r.end < posHead || r.num == r.end) && r.end <= v.head + REVIEW_WINDOW
    && (Pending(v) ==> v.done[|v.done| - 1] <= r.end)
  }

  /** The chain has no transactions in the round. */
  ghost predicate NothingIn(c: Chain, r: Round) {
    forall n: nat :: r.num < n <= r.end ==> !HasTxs(c, n)
  }

  ghost predicate ReviewInv(c: Chain, start: nat, s: System)
    requires ValidChain(c)
  {
    var v := s.rev;
    && RowsOk(c, s.pos) && LogOk(c, start, v) && !v.lookupFailed
    && (Pending(v) ==> v.done[|v.done| - 1] <= v.head + REVIEW_WINDOW && v.done[|v.done| - 1] < HeadNum(s.pos))
    && match v.phase
       case Stopped => true
       case Idle => true
       case Scanning(r) => RoundOk(v, r, HeadNum(s.pos))
       case Nothing(r) => RoundOk(v, r, HeadNum(s.pos)) && NothingIn(c, r)
       case EndFound(r) => RoundOk(v, r, HeadNum(s.pos)) && NothingIn(c, r)
       case Processing(r, blk, i) =>
         && RoundOk(v, r, HeadNum(s.pos))
         && blk <= r.end && IsNextTxBlock(c, v.head, blk) && i <= |c[blk].txs|
       case Processed(r, blk) =>
         && RoundOk(v, r, HeadNum(s.pos))
         && blk <= r.end && blk > v.head && v.done != [] && v.done[|v.done| - 1] == blk
  }

  // ---------------------------------------------------------------------------
  // Every step of either process keeps the invariant
  // ---------------------------------------------------------------------------

  /** Up to the importer's head the block table shows the chain. */
  lemma RowsShowChain(c: Chain, s: State, n: nat)
    requires ValidChain(c) && RowsOk(c, s) && n <= HeadNum(s)
    ensures n < |c| && Row(Block, n, 0) in s.rows
    ensures forall i :: 0 <= i < |c[n].txs| ==> TxStored(s.rows, c[n].txs[i])
  {
    assert Imported(c, HeadNum(s), Row(Block, n, 0));
    forall i | 0 <= i < |c[n].txs|
      ensures TxStored(s.rows, c[n].txs[i])
    {
      assert Imported(c, HeadNum(s), Row(Tx, n, c[n].txs[i]));
    }
  }

  lemma {:induction false} TxBlocksGap(c: Chain, start: nat, lo: nat, hi: nat)
    requires start <= lo <= hi && forall n: nat :: lo < n <= hi ==> !HasTxs(c, n)
    ensures TxBlocks(c, start, hi) == TxBlocks(c, start, lo)
    decreases hi
  {
    if lo < hi {
      TxBlocksGap(c, start, lo, hi - 1);
    }
  }

  lemma FindBlockIsNext(c: Chain, s: System, r: Round, blk: nat)
    requires ValidChain(c) && RowsOk(c, s.pos) && IsNextRow(c, s.pos.rows, r.num, blk) && blk <= r.end < HeadNum(s.pos)
    ensures IsNextTxBlock(c, r.num, blk)
  {
    forall n: nat | r.num < n < blk
      ensures !HasTxs(c, n)
    {
      RowsShowChain(c, s.pos, n);
    }
  }

  /** The lowest block with transactions in a range. */
  lemma {:induction false} LowestTxBlock(c: Chain, lo: nat, n: nat) returns (blk: nat)
    requires n > lo && HasTxs(c, n)
    ensures IsNextTxBlock(c, lo, blk) && blk <= n
    decreases n
  {
    if m: nat :| lo < m < n && HasTxs(c, m) {
      blk := LowestTxBlock(c, lo, m);
    } else {
      blk := n;
    }
  }

  lemma FindNothingMeansNothing(c: Chain, s: System, r: Round)
    requires ValidChain(c) && RowsOk(c, s.pos) && (r.end < HeadNum(s.pos) || r.num == r.end)
    requires forall blk: nat :: IsNextRow(c, s.pos.rows, r.num, blk) ==> blk > r.end
    ensures NothingIn(c, r)
  {
    forall n: nat | r.num < n <= r.end
      ensures !HasTxs(c, n)
    {
      if HasTxs(c, n) {
        var blk := LowestTxBlock(c, r.num, n);
        RowsShowChain(c, s.pos, blk);
        assert IsNextRow(c, s.pos.rows, r.num, blk);
      }
    }
  }

  lemma ImporterKeepsReview(c: Chain, start: nat, s: System, t: System, p: Step)
    requires ValidChain(c) && ReviewInv(c, start, s) && ReviewNext(c, s, t, Importer(p))
    ensures ReviewInv(c, start, t)
  {
    assert Next(c, s.pos, t.pos);
    NextKeepsRows(c, s.pos, t.pos);
  }

  lemma BeginKeepsReview(c: Chain, start: nat, s: System, t: System, step: ReviewStep)
    requires ValidChain(c) && ReviewInv(c, start, s) && ReviewNext(c, s, t, step)
    requires step.Stop? || step.Start? || step.Fail? || step.BeginReview?
    ensures ReviewInv(c, start, t)
  {
  }

  lemma FindKeepsReview(c: Chain, start: nat, s: System, t: System, step: ReviewStep)
    requires ValidChain(c) && ReviewInv(c, start, s) && ReviewNext(c, s, t, step)
    requires step.FindBlock? || step.FindNothing?
    ensures ReviewInv(c, start, t)
  {
    var v, r := s.rev, s.rev.phase.r;
    if step.FindBlock? {
      FindBlockIsNext(c, s, r, step.blk);
    } else {
      FindNothingMeansNothing(c, s, r);
    }
  }

  /** The head of a round that found nothing is stored, whatever the importer does meanwhile. */
  lemma EndKeepsReview(c: Chain, start: nat, s: System, t: System, step: ReviewStep)
    requires ValidChain(c) && ReviewInv(c, start, s) && ReviewNext(c, s, t, step)
    requires step.FindEnd? || step.SaveEnd?
    ensures ReviewInv(c, start, t)
  {
    TxBlocksGap(c, start, s.rev.phase.r.num, s.rev.phase.r.end);
  }

  lemma FindTxKeepsReview(c: Chain, start: nat, s: System, t: System)
    requires ValidChain(c) && ReviewInv(c, start, s) && ReviewNext(c, s, t, FindTx)
    ensures ReviewInv(c, start, t)
  {
    RowsShowChain(c, s.pos, s.rev.phase.blk);
  }

  lemma FinishKeepsReview(c: Chain, start: nat, s: System, t: System)
    requires ValidChain(c) && ReviewInv(c, start, s) && ReviewNext(c, s, t, FinishBlock)
    ensures ReviewInv(c, start, t)
  {
  }

  lemma SaveHeadKeepsReview(c: Chain, start: nat, s: System, t: System)
    requires ValidChain(c) && ReviewInv(c, start, s) && ReviewNext(c, s, t, SaveHead)
    ensures ReviewInv(c, start, t)
  {
    var v, blk := s.rev, s.rev.phase.blk;
    TxBlocksGap(c, start, v.head, blk - 1);
    assert TxBlocks(c, start, blk) == TxBlocks(c, start, v.head) + [blk];
  }

  lemma ReviewStepKeepsInv(c: Chain, start: nat, s: System, t: System, step: ReviewStep)
    requires ValidChain(c) && ReviewInv(c, start, s) && ReviewNext(c, s, t, step)
    ensures ReviewInv(c, start, t) && s.rev.head <= t.rev.head
  {
    match step
    case Importer(p) => ImporterKeepsReview(c, start, s, t, p);
    case FindBlock(_) => FindKeepsReview(c, start, s, t, step);
    case FindNothing => FindKeepsReview(c, start, s, t, step);
    case FindEnd => EndKeepsReview(c, start, s, t, step);
    case SaveEnd => EndKeepsReview(c, start, s, t, step);
    case FindTx => FindTxKeepsReview(c, start, s, t);
    case FinishBlock => FinishKeepsReview(c, start, s, t);
    case SaveHead => SaveHeadKeepsReview(c, start, s, t);
    case _ => BeginKeepsReview(c, start, s, t, step);
  }

  // ---------------------------------------------------------------------------
  // Main results: any interleaving, with crashes of both processes
  // ---------------------------------------------------------------------------

  ghost predicate IsReviewRun(c: Chain, run: seq<System>)
    requires ValidChain(c)
  {
    && run != [] && Starts(c, run[0].pos)
    && run[0].rev.phase.Stopped? && run[0].rev.done == [] && !run[0].rev.lookupFailed
    && forall i :: 0 < i < |run| ==> ReviewStepExists(c, run[i - 1], run[i])
  }

  ghost predicate ReviewStepExists(c: Chain, s: System, t: System)
    requires ValidChain(c)
  {
    exists step :: ReviewNext(c, s, t, step)
  }

  lemma {:induction false} ReviewRunsKeepInv(c: Chain, run: seq<System>, i: nat)
    requires ValidChain(c) && IsReviewRun(c, run) && i < |run|
    ensures ReviewInv(c, run[0].rev.head, run[i])
    ensures i > 0 ==> run[i - 1].rev.head <= run[i].rev.head
  {
    if i > 0 {
      ReviewRunsKeepInv(c, run, i - 1);
      assert ReviewStepExists(c, run[i - 1], run[i]);
      var step :| ReviewNext(c, run[i - 1], run[i], step);
      ReviewStepKeepsInv(c, run[0].rev.head, run[i - 1], run[i], step);
    } else {
      TxBlocksGap(c, run[0].rev.head, run[0].rev.head, run[0].rev.head);
    }
  }

  ghost predicate ReviewHeadsGoUp(run: seq<System>) {
    forall k :: 0 < k < |run| ==> run[k - 1].rev.head <= run[k].rev.head
  }

  lemma {:induction false} ReviewHeadsGoUpFrom(run: seq<System>, i: nat, j: nat)
    requires ReviewHeadsGoUp(run) && i <= j < |run|
    ensures run[i].rev.head <= run[j].rev.head
    decreases j
  {
    if i < j {
      ReviewHeadsGoUpFrom(run, i, j - 1);
    }
  }

  /** The reviewer's head never decreases. */
  lemma ReviewHeadNeverDecreases(c: Chain, run: seq<System>, i: nat, j: nat)
    requires ValidChain(c) && IsReviewRun(c, run) && i <= j < |run|
    ensures run[i].rev.head <= run[j].rev.head
  {
    forall k | 0 < k < |run|
      ensures run[k - 1].rev.head <= run[k].rev.head
    {
      ReviewRunsKeepInv(c, run, k);
    }
    ReviewHeadsGoUpFrom(run, i, j);
  }

  /** The completed blocks are exactly the blocks with transactions in (start, head], in ascending order,
      apart from immediate repetitions and from the next one when it is pending. */
  lemma CompletedBlocksExact(c: Chain, run: seq<System>, i: nat)
    requires ValidChain(c) && IsReviewRun(c, run) && i < |run|
    ensures LogOk(c, run[0].rev.head, run[i].rev)
  {
    ReviewRunsKeepInv(c, run, i);
  }

  /** A step completes a block only right after the log's end: the next block with transactions, or once
      more the pending one. */
  lemma OnlyPendingIsRepeated(c: Chain, run: seq<System>, i: nat) returns (blk: nat)
    requires ValidChain(c) && IsReviewRun(c, run) && 0 < i < |run| && run[i].rev.done != run[i - 1].rev.done
    ensures run[i].rev.done == run[i - 1].rev.done + [blk] && IsNextTxBlock(c, run[i - 1].rev.head, blk)
    ensures blk in run[i - 1].rev.done ==>
              Pending(run[i - 1].rev) && blk == run[i - 1].rev.done[|run[i - 1].rev.done| - 1]
  {
    ReviewRunsKeepInv(c, run, i - 1);
    assert ReviewStepExists(c, run[i - 1], run[i]);
    blk := CompletesNext(c, run[0].rev.head, run[i - 1], run[i]);
  }

  lemma CompletesNext(c: Chain, start: nat, s: System, t: System) returns (blk: nat)
    requires ValidChain(c) && ReviewInv(c, start, s) && ReviewStepExists(c, s, t) && t.rev.done != s.rev.done
    ensures t.rev.done == s.rev.done + [blk] && IsNextTxBlock(c, s.rev.head, blk)
    ensures blk in s.rev.done ==> Pending(s.rev) && blk == s.rev.done[|s.rev.done| - 1]
  {
    var v := s.rev;
    var step :| ReviewNext(c, s, t, step);
    blk := v.phase.blk;
    if blk in v.done {
      OnceKeepsElements(v.done, blk);
      if blk in TxBlocks(c, start, v.head) {
        TxBlocksBelow(c, start, v.head, blk);
      }
    }
  }

  lemma {:induction false} OnceKeepsElements(log: seq<nat>, x: nat)
    requires x in log
    ensures x in Once(log)
  {
    if |log| >= 2 {
      var front := log[..|log| - 1];
      if x in front {
        OnceKeepsElements(front, x);
      }
    }
  }

  lemma {:induction false} TxBlocksBelow(c: Chain, start: nat, head: nat, x: nat)
    requires x in TxBlocks(c, start, head)
    ensures start < x <= head && HasTxs(c, x)
    decreases head
  {
    if HasTxs(c, head) && x == head {
    } else {
      TxBlocksBelow(c, start, head - 1, x);
    }
  }

  /** A reviewer that runs at head 0 has seen the genesis block, and no cleanup deletes it. */
  ghost predicate GenesisSeen(s: System) {
    && (s.pos.phase.Cleaning? ==> s.pos.head.Some?)
    && (s.rev.head == 0 && !s.rev.phase.Stopped? ==> Row(Block, 0, 0) in s.pos.rows)
  }

  lemma StepKeepsGenesis(c: Chain, s: System, t: System, step: ReviewStep)
    requires ValidChain(c) && GenesisSeen(s) && ReviewNext(c, s, t, step) && s.rev.head <= t.rev.head
    ensures GenesisSeen(t)
  {
  }

  lemma {:induction false} GenesisIsThere(c: Chain, run: seq<System>, i: nat)
    requires ValidChain(c) && IsReviewRun(c, run) && i < |run|
    ensures GenesisSeen(run[i])
  {
    if i > 0 {
      GenesisIsThere(c, run, i - 1);
      ReviewRunsKeepInv(c, run, i);
      assert ReviewStepExists(c, run[i - 1], run[i]);
      var step :| ReviewNext(c, run[i - 1], run[i], step);
      StepKeepsGenesis(c, run[i - 1], run[i], step);
    }
  }

  /** Every transaction of a block being processed is in the database: the lookup never fails. */
  lemma LookupNeverFails(c: Chain, run: seq<System>, i: nat)
    requires ValidChain(c) && IsReviewRun(c, run) && i < |run|
    ensures !run[i].rev.lookupFailed
    ensures run[i].rev.phase.Processing? ==>
              var blk := run[i].rev.phase.blk;
              blk < |c| && forall k :: 0 <= k < |c[blk].txs| ==> TxStored(run[i].pos.rows, c[blk].txs[k])
  {
    ReviewRunsKeepInv(c, run, i);
    if run[i].rev.phase.Processing? {
      RowsShowChain(c, run[i].pos, run[i].rev.phase.blk);
    }
  }
}
