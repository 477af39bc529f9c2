/**
 The reviewer makes progress. While the importer stands still, every own step of the reviewer brings it nearer to the
 block before the importer's head, and until it is there it has a next step; there, all blocks with transactions
 have been processed.
 */
module ReviewProgress {
  import opened Common
  import opened PosImport
  import opened PosTables
  import opened Reviewer

  /** The start or a step of the reviewer's loop: not the importer's, and neither stopped nor failing. */
  predicate IsOwn(step: ReviewStep) {
    !step.Importer? && !step.Stop? && !step.Fail?
  }

  // ---------------------------------------------------------------------------
  // A measure that every step lowers
  // ---------------------------------------------------------------------------

  /** A round that began at its own end, and so can only store the head that is stored. */
  predicate IsSpent(r: Round) {
    r.num == r.end
  }

  /** How far a phase is from raising the head, or from the end of a spent round. */
  function Rank(v: Review): nat {
    match v.phase
    case Stopped => 10
    case Scanning(r) => if IsSpent(r) then 9 else 5
    case Nothing(r) => if IsSpent(r) then 8 else 2
    case EndFound(r) => if IsSpent(r) then 7 else 1
    case Idle => 6
    case Processing(_, _, _) => 4
    case Processed(_, _) => 3
  }

  function TxsLeft(c: Chain, v: Review): int {
    if v.phase.Processing? && v.phase.blk < |c| then |c[v.phase.blk].txs| - v.phase.txIndex else 0
  }

  /** The head is higher, or the same round is further. */
  predicate Nearer(c: Chain, t: Review, v: Review) {
    || t.head > v.head
    || (t.head == v.head && Rank(t) < Rank(v))
    || (t.head == v.head && Rank(t) == Rank(v) && TxsLeft(c, t) < TxsLeft(c, v))
  }

  /** The importer has stored head `h`, and the reviewer is not past the block before it. */
  ghost predicate Behind(c: Chain, start: nat, s: System, h: nat)
    requires ValidChain(c)
  {
    ReviewInv(c, start, s) && s.pos.head == Some(h) && s.rev.head < h
  }

  /** Whatever own step the reviewer takes, it gets nearer, unless it was there already. */
  lemma OwnStepIsNearer(c: Chain, start: nat, s: System, t: System, step: ReviewStep, h: nat)
    requires ValidChain(c) && Behind(c, start, s, h) && s.rev.head < h - 1
    requires IsOwn(step) && ReviewNext(c, s, t, step)
    ensures Behind(c, start, t, h) && t.pos == s.pos && Nearer(c, t.rev, s.rev) && s.rev.head <= t.rev.head <= h - 1
  {
    ReviewStepKeepsInv(c, start, s, t, step);
    if step.FindEnd? {
      RowsShowChain(c, s.pos, s.rev.phase.r.end);
    }
  }

  /** Until it is there it has a step to take. */
  lemma OwnStepExists(c: Chain, start: nat, s: System, h: nat) returns (t: System, step: ReviewStep)
    requires ValidChain(c) && Behind(c, start, s, h) && s.rev.head < h - 1
    ensures IsOwn(step) && ReviewNext(c, s, t, step)
  {
    var v := s.rev;
    match v.phase
    case Stopped =>
      RowsShowChain(c, s.pos, 0);
      t, step := s.(rev := v.(phase := Idle)), Start;
    case Idle =>
      var best := LocalBest(s.pos);
      var end := if v.head + REVIEW_WINDOW > best then best else v.head + REVIEW_WINDOW;
      t, step := s.(rev := v.(phase := Scanning(Round(v.head, end)))), BeginReview;
    case Scanning(r) =>
      if blk: nat :| IsNextRow(c, s.pos.rows, r.num, blk) && blk <= r.end {
        t, step := s.(rev := v.(phase := Processing(r, blk, 0))), FindBlock(blk);
      } else {
        t, step := s.(rev := v.(phase := Nothing(r))), FindNothing;
      }
    case Nothing(r) =>
      t := s.(rev := v.(phase := if Row(Block, r.end, 0) in s.pos.rows then EndFound(r) else Idle));
      step := FindEnd;
    case EndFound(r) =>
      t, step := s.(rev := v.(head := r.end, phase := Idle)), SaveEnd;
    case Processing(r, blk, i) =>
      if i == |c[blk].txs| {
        t, step := s.(rev := v.(phase := Processed(r, blk), done := v.done + [blk])), FinishBlock;
      } else {
        RowsShowChain(c, s.pos, blk);
        t, step := s.(rev := v.(phase := Processing(r, blk, i + 1))), FindTx;
      }
    case Processed(r, blk) =>
      t, step := s.(rev := v.(head := blk, phase := Scanning(Round(blk, r.end)))), SaveHead;
  }

  // ---------------------------------------------------------------------------
  // Main result
  // ---------------------------------------------------------------------------

  ghost predicate OwnNext(c: Chain, s: System, t: System)
    requires ValidChain(c)
  {
    exists step :: IsOwn(step) && ReviewNext(c, s, t, step)
  }

  /** Own steps, one after another. */
  ghost predicate OwnRun(c: Chain, run: seq<System>)
    requires ValidChain(c)
  {
    run != [] && forall i :: 0 < i < |run| ==> OwnNext(c, run[i - 1], run[i])
  }

  lemma OwnThen(c: Chain, s: System, run: seq<System>)
    requires ValidChain(c) && OwnRun(c, run) && OwnNext(c, s, run[0])
    ensures OwnRun(c, [s] + run)
  {
    var all := [s] + run;
    forall i | 0 < i < |all|
      ensures OwnNext(c, all[i - 1], all[i])
    {
      if i > 1 {
        assert all[i - 1] == run[i - 2] && all[i] == run[i - 1];
        assert OwnNext(c, run[i - 2], run[i - 1]);
      }
    }
  }

  lemma {:induction false} RunToEnd(c: Chain, start: nat, s: System, h: nat) returns (run: seq<System>)
    requires ValidChain(c) && Behind(c, start, s, h)
    ensures OwnRun(c, run) && run[0] == s
    ensures var last := run[|run| - 1];
            Behind(c, start, last, h) && last.pos == s.pos && last.rev.head == h - 1
    decreases h - s.rev.head, Rank(s.rev), TxsLeft(c, s.rev)
  {
    if s.rev.head == h - 1 {
      run := [s];
    } else {
      var t, step := OwnStepExists(c, start, s, h);
      OwnStepIsNearer(c, start, s, t, step, h);
      var rest := RunToEnd(c, start, t, h);
      assert OwnNext(c, s, t);
      OwnThen(c, s, rest);
      run := [s] + rest;
    }
  }

  /** The blocks of the list are exactly those with transactions above `start` up to `head`, ascending. */
  lemma {:induction false} TxBlocksAre(c: Chain, start: nat, head: nat)
    ensures forall n: nat ::
              n in TxBlocks(c, start, head) <==> start < n <= head && n < |c| && c[n].txs != []
    ensures forall i, j :: 0 <= i < j < |TxBlocks(c, start, head)| ==>
              TxBlocks(c, start, head)[i] < TxBlocks(c, start, head)[j]
    decreases head
  {
    if head > start {
      TxBlocksAre(c, start, head - 1);
      var front := TxBlocks(c, start, head - 1);
      forall i | 0 <= i < |front|
        ensures front[i] < head
      {
        assert front[i] in front;
      }
    }
  }

  lemma {:induction false} OnceComesFromLog(log: seq<nat>, x: nat)
    requires x in Once(log)
    ensures x in log
  {
    if |log| >= 2 {
      var front := log[..|log| - 1];
      if x in Once(front) {
        OnceComesFromLog(front, x);
      }
    }
  }

  /** From any state of any run in which the importer has stored a head and the reviewer, running or stopped, is behind
      it, the reviewer's own steps lead to the block before that head. Then the log without repetitions is the list of
      the blocks with transactions in (start, h - 1], and each of them has been completed. */
  lemma ReviewerCatchesUp(c: Chain, run: seq<System>, i: nat, h: nat) returns (more: seq<System>)
    requires ValidChain(c) && IsReviewRun(c, run) && i < |run|
    requires run[i].pos.head == Some(h) && run[i].rev.head < h
    ensures OwnRun(c, more) && more[0] == run[i]
    ensures var start, last := run[0].rev.head, more[|more| - 1];
            && last.pos == run[i].pos && last.rev.head == h - 1 && !last.rev.lookupFailed
            && Once(last.rev.done) == TxBlocks(c, start, h - 1)
            && forall n: nat :: n in last.rev.done <==> start < n <= h - 1 && n < |c| && c[n].txs != []
  {
    var start := run[0].rev.head;
    ReviewRunsKeepInv(c, run, i);
    more := RunToEnd(c, start, run[i], h);
    var done := more[|more| - 1].rev.done;
    TxBlocksAre(c, start, h - 1);
    forall n: nat
      ensures n in done <==> n in TxBlocks(c, start, h - 1)
    {
      if n in done {
        OnceKeepsElements(done, n);
      } else if n in Once(done) {
        OnceComesFromLog(done, n);
      }
    }
  }

  // ---------------------------------------------------------------------------
  // What a failure repeats
  // ---------------------------------------------------------------------------

  /** The reviewer finds the pending block again. */
  lemma FindsPending(c: Chain, start: nat, s: System) returns (run: seq<System>)
    requires ValidChain(c) && ReviewInv(c, start, s) && s.rev.phase.Idle? && Pending(s.rev)
    ensures OwnRun(c, run) && run[0] == s
    ensures var last := run[|run| - 1];
            && ReviewInv(c, start, last) && last.rev.done == s.rev.done
            && last.rev.phase.Processing? && last.rev.phase.blk == s.rev.done[|s.rev.done| - 1]
  {
    var v, best, blk := s.rev, LocalBest(s.pos), s.rev.done[|s.rev.done| - 1];
    var r := Round(v.head, if v.head + REVIEW_WINDOW > best then best else v.head + REVIEW_WINDOW);
    var t := s.(rev := v.(phase := Scanning(r)));
    var u := s.(rev := v.(phase := Processing(r, blk, 0)));
    RowsShowChain(c, s.pos, blk);
    assert ReviewNext(c, s, t, BeginReview) && ReviewNext(c, t, u, FindBlock(blk));
    ReviewStepKeepsInv(c, start, s, t, BeginReview);
    ReviewStepKeepsInv(c, start, t, u, FindBlock(blk));
    assert OwnNext(c, s, t) && OwnNext(c, t, u);
    run := [s, t, u];
  }

  /** And processes it. */
  lemma {:induction false} Processes(c: Chain, start: nat, s: System) returns (run: seq<System>)
    requires ValidChain(c) && ReviewInv(c, start, s) && s.rev.phase.Processing?
    ensures OwnRun(c, run) && run[0] == s
    ensures run[|run| - 1].rev.done == s.rev.done + [s.rev.phase.blk]
    decreases TxsLeft(c, s.rev)
  {
    var v, r, blk, n := s.rev, s.rev.phase.r, s.rev.phase.blk, s.rev.phase.txIndex;
    if n == |c[blk].txs| {
      var t := s.(rev := v.(phase := Processed(r, blk), done := v.done + [blk]));
      assert ReviewNext(c, s, t, FinishBlock);
      run := [s, t];
    } else {
      RowsShowChain(c, s.pos, blk);
      var t := s.(rev := v.(phase := Processing(r, blk, n + 1)));
      assert ReviewNext(c, s, t, FindTx) && OwnNext(c, s, t);
      ReviewStepKeepsInv(c, start, s, t, FindTx);
      var rest := Processes(c, start, t);
      OwnThen(c, s, rest);
      run := [s] + rest;
    }
  }

  lemma OwnBoth(c: Chain, a: seq<System>, b: seq<System>)
    requires ValidChain(c) && OwnRun(c, a) && OwnRun(c, b) && a[|a| - 1] == b[0]
    ensures OwnRun(c, a + b[1..])
  {
    var all := a + b[1..];
    forall i | 0 < i < |all|
      ensures OwnNext(c, all[i - 1], all[i])
    {
      if i < |a| {
        assert OwnNext(c, a[i - 1], a[i]);
      } else {
        assert all[i - 1] == b[i - |a|] && all[i] == b[i - |a| + 1];
        assert OwnNext(c, b[i - |a|], b[i - |a| + 1]);
      }
    }
  }

  /** Repetitions do happen: wherever a block has been processed and the head not been stored, the reviewer may fail, or
      stop and start, and its own steps then process the same block once more. */
  lemma FailureRepeats(c: Chain, run: seq<System>, i: nat, stops: bool) returns (idle: System, more: seq<System>)
    requires ValidChain(c) && IsReviewRun(c, run) && i < |run| && run[i].rev.phase.Processed?
    ensures if stops then exists down :: ReviewNext(c, run[i], down, Stop) && ReviewNext(c, down, idle, Start)
            else ReviewNext(c, run[i], idle, Fail)
    ensures OwnRun(c, more) && more[0] == idle
    ensures more[|more| - 1].rev.done == run[i].rev.done + [run[i].rev.phase.blk]
    ensures run[i].rev.done != [] && run[i].rev.done[|run[i].rev.done| - 1] == run[i].rev.phase.blk
  {
    var start, s := run[0].rev.head, run[i];
    idle := s.(rev := s.rev.(phase := Idle));
    ReviewRunsKeepInv(c, run, i);
    GenesisIsThere(c, run, i);
    var down := s.(rev := s.rev.(phase := Stopped));
    assert ReviewNext(c, s, down, Stop) && ReviewNext(c, down, idle, Start) && ReviewNext(c, s, idle, Fail);
    ReviewStepKeepsInv(c, start, s, idle, Fail);
    var found := FindsPending(c, start, idle);
    var done := Processes(c, start, found[|found| - 1]);
    OwnBoth(c, found, done);
    more := found + done[1..];
  }
}
