/**
 The tables of the PoS importer under crashes. Up to the head they hold exactly the rows of a fault-free
 import, from a database at rest and from an empty one; and a crash before the first head can leave a row
 that no later import gets past.
 */
module PosTables {
  import opened Common
  import opened PosImport

  // ---------------------------------------------------------------------------
  // The invariant
  // ---------------------------------------------------------------------------

  /** Up to the head the tables hold exactly the fault-free import, and no table holds anything that
      is not on the chain. */
  ghost predicate RowsExact(c: Chain, rows: set<Row>, h: int) {
    && (forall r :: r in rows ==> r.num < |c| && r in c[r.num].rows)
    && (forall r :: Imported(c, h, r) ==> r in rows)
  }

  ghost predicate NoRowsAbove(rows: set<Row>, h: int) {
    forall r :: r in rows ==> r.num <= h
  }

  /** While table `k` is being saved: earlier tables are complete for the window, later ones untouched. */
  ghost predicate TablesSaved(c: Chain, rows: set<Row>, h: int, next: nat, k: nat, unsaved: set<Row>)
    requires next <= |c|
  {
    && (forall r :: r in rows && r.num > h ==> r.num < next && SaveOrder(r.table) <= k)
    && (forall r :: r in unsaved ==> r !in rows && r.num > h && SaveOrder(r.table) == k && Imported(c, next - 1, r))
    && (forall r :: Imported(c, next - 1, r) && SaveOrder(r.table) <= k ==> r in rows || r in unsaved)
  }

  /** Before the first head the window is the first one: blocks 0 .. 99 saved together, or, near the best
      block, block 0 alone. `fetched` is 1 once the window is complete. */
  ghost predicate FirstWindow(best: nat, w: Window, fetched: nat) {
    && w.end < LOOP_WINDOW
    && if w.fastforward then w.end == LOOP_WINDOW - 1 && best >= LOOP_WINDOW && (fetched == 1 ==> w.next == LOOP_WINDOW)
       else w.next == fetched
  }

  ghost predicate WindowOk(s: State, w: Window, fetched: nat) {
    && HeadNum(s) + fetched < w.next <= w.end + 1 && w.end <= s.best
    && (s.head.None? ==> FirstWindow(s.best, w, fetched))
  }

  ghost predicate PhaseOk(c: Chain, s: State)
    requires ValidChain(c) && s.best < |c| && HeadNum(s) < |c|
  {
    var h := HeadNum(s);
    match s.phase
    case Down => s.head.None? ==> NoRowsAbove(s.rows, h)
    case Cleaning(k) => s.head.Some? && k < TABLES && forall r :: r in s.rows && CleanOrder(r.table) < k ==> r.num <= h
    case FixingLate(_) => s.head.Some? && NoRowsAbove(s.rows, h)
    case FixingNegative(_) => s.head.Some? && NoRowsAbove(s.rows, h)
    case Waiting => NoRowsAbove(s.rows, h)
    case Genesis(left, made) => s.head.None? && NoRowsAbove(s.rows, h)
    case Importing(w) => WindowOk(s, w, 0) && NoRowsAbove(s.rows, h)
    case Touching(w, untouched) =>
      WindowOk(s, w, 0) && w.next <= w.end && NoRowsAbove(s.rows, h) && untouched <= c[w.next].deltas.Keys
    case SavingTable(w, k, unsavedRows) =>
      WindowOk(s, w, 1) && k < TABLES && TablesSaved(c, s.rows, h, w.next, k, unsavedRows)
    case SavingAccounts(w, unsaved) =>
      WindowOk(s, w, 1) && TablesSaved(c, s.rows, h, w.next, SaveOrder(InternalTx), {}) && unsaved <= s.cache.Keys
    case SavingHead(w) => WindowOk(s, w, 1) && TablesSaved(c, s.rows, h, w.next, SaveOrder(Block), {})
  }

  ghost predicate RowsInv(c: Chain, s: State)
    requires ValidChain(c)
  {
    HeadNum(s) <= s.best < |c| && RowsExact(c, s.rows, HeadNum(s)) && PhaseOk(c, s)
  }

  // ---------------------------------------------------------------------------
  // Rows that a crash before the first head leaves
  // ---------------------------------------------------------------------------

  /** The save that the process is heading for will insert the row once more. */
  ghost predicate InTheWay(s: State, r: Row) {
    match s.phase
    case Down => true
    case Waiting => true
    case Genesis(_, _) => true
    case Importing(w) => r.num == 0 || (w.fastforward && w.end == LOOP_WINDOW - 1)
    case Touching(w, _) => r.num == 0 || (w.fastforward && w.end == LOOP_WINDOW - 1)
    case SavingTable(w, k, unsaved) =>
      r.num < w.next && k <= SaveOrder(r.table) && (k == SaveOrder(r.table) ==> r in unsaved)
    case SavingAccounts(w, _) => r.num < w.next && r.table == Block
    case _ => false
  }

  /** No head is stored, and an earlier save has left a row of the first window: of block 0, or, when the first
      window is a hundred blocks, of any of them. */
  ghost predicate LeftRow(c: Chain, s: State, r: Row)
    requires ValidChain(c)
  {
    && s.head.None? && r in s.rows && r.num < LOOP_WINDOW && r.num < |c| && r in c[r.num].rows
    && (r.num == 0 || s.best >= LOOP_WINDOW)
    && InTheWay(s, r)
  }

  /** Some table refuses the import. */
  ghost predicate TablesBlocked(c: Chain, s: State)
    requires ValidChain(c)
  {
    exists r :: LeftRow(c, s, r)
  }

  lemma LeftRowStaysInSave(c: Chain, s: State, t: State, step: Step, r: Row)
    requires ValidChain(c) && LeftRow(c, s, r) && NextStep(c, s, t, step)
    requires step.EndBlock? || step.InsertRow? || step.TableSaved? || step.SaveAccount? || step.AccountsSaved?
             || step.UpdateHead?
    ensures LeftRow(c, t, r)
  {
  }

  /** It stays, whatever happens, and no head is stored. */
  lemma LeftRowStays(c: Chain, s: State, t: State, step: Step, r: Row)
    requires ValidChain(c) && LeftRow(c, s, r) && NextStep(c, s, t, step)
    ensures LeftRow(c, t, r)
  {
    if step.EndBlock? || step.InsertRow? || step.TableSaved? || step.SaveAccount? || step.AccountsSaved?
       || step.UpdateHead?
    {
      LeftRowStaysInSave(c, s, t, step, r);
    }
  }

  // ---------------------------------------------------------------------------
  // Every step keeps the invariant, or leaves such a row
  // ---------------------------------------------------------------------------

  lemma FirstTableStarts(c: Chain, rows: set<Row>, h: int, next: nat)
    requires ValidChain(c) && -1 <= h < next <= |c|
    requires RowsExact(c, rows, h) && NoRowsAbove(rows, h)
    ensures TablesSaved(c, rows, h, next, 0, WindowRows(c, h + 1, next, 0))
  {
    var unsaved := WindowRows(c, h + 1, next, 0);
    forall r | Imported(c, next - 1, r) && SaveOrder(r.table) <= 0
      ensures r in rows || r in unsaved
    {
      assert r.num <= h ==> Imported(c, h, r);
    }
  }

  lemma NextTableStarts(c: Chain, rows: set<Row>, h: int, next: nat, k: nat)
    requires ValidChain(c) && -1 <= h < next <= |c|
    requires RowsExact(c, rows, h) && TablesSaved(c, rows, h, next, k, {})
    ensures TablesSaved(c, rows, h, next, k + 1, WindowRows(c, h + 1, next, k + 1))
  {
    var unsaved := WindowRows(c, h + 1, next, k + 1);
    forall r | Imported(c, next - 1, r) && SaveOrder(r.table) <= k + 1
      ensures r in rows || r in unsaved
    {
      assert r.num <= h ==> Imported(c, h, r);
    }
  }

  /** The head is stored when everything of the window is. */
  lemma WindowComplete(c: Chain, rows: set<Row>, h: int, next: nat)
    requires ValidChain(c) && -1 <= h < next <= |c| && RowsExact(c, rows, h)
    requires TablesSaved(c, rows, h, next, SaveOrder(Block), {})
    ensures RowsExact(c, rows, next - 1) && NoRowsAbove(rows, next - 1)
  {
    forall r | r in rows
      ensures r.num <= next - 1
    {
      assert r.num <= h || r.num < next;
    }
  }

  lemma CrashKeepsRows(c: Chain, s: State, t: State)
    requires ValidChain(c) && RowsInv(c, s) && CrashStep(c, s, t)
    ensures RowsInv(c, t) || TablesBlocked(c, t)
  {
    if s.head.None? && s.rows != {} {
      var r :| r in s.rows;
      assert LeftRow(c, t, r);
    }
  }

  /** The steps outside of the save. */
  lemma QuietStepKeepsRows(c: Chain, s: State, t: State, step: Step)
    requires ValidChain(c) && RowsInv(c, s) && NextStep(c, s, t, step)
    requires !step.Crash? && !step.EndBlock? && !step.InsertRow? && !step.TableSaved? && !step.AccountsSaved?
    requires !step.UpdateHead?
    ensures RowsInv(c, t) && HeadNum(t) == HeadNum(s)
  {
    if step.DeleteRow? || step.TableCleaned? {
      CleaningKeepsRows(c, s, t, step);
    } else if step.BeginRound? || step.StartBlock? || step.Touch? || step.SaveAccount? {
      RoundKeepsRows(c, s, t, step);
    } else {
      RestKeepsRows(c, s, t, step);
    }
  }

  lemma CleaningKeepsRows(c: Chain, s: State, t: State, step: Step)
    requires ValidChain(c) && RowsInv(c, s) && NextStep(c, s, t, step) && (step.DeleteRow? || step.TableCleaned?)
    ensures RowsInv(c, t) && HeadNum(t) == HeadNum(s)
  {
  }

  lemma RoundKeepsRows(c: Chain, s: State, t: State, step: Step)
    requires ValidChain(c) && RowsInv(c, s) && NextStep(c, s, t, step)
    requires step.BeginRound? || step.StartBlock? || step.Touch? || step.SaveAccount?
    ensures RowsInv(c, t) && HeadNum(t) == HeadNum(s)
  {
  }

  /** No row changes, and no round is on. */
  lemma RestKeepsRows(c: Chain, s: State, t: State, step: Step)
    requires ValidChain(c) && RowsInv(c, s) && NextStep(c, s, t, step)
    requires step.Grow? || step.Restart? || step.FixLate? || step.LateFixed? || step.FixNegative? || step.NegativeFixed?
             || step.BeginGenesis? || step.CreateGenesis? || step.SaveGenesis?
    ensures RowsInv(c, t) && HeadNum(t) == HeadNum(s)
  {
  }

  lemma EndBlockKeepsRows(c: Chain, s: State, t: State)
    requires ValidChain(c) && RowsInv(c, s) && EndBlockStep(c, s, t)
    ensures RowsInv(c, t)
  {
    FirstTableStarts(c, s.rows, HeadNum(s), s.phase.w.next + 1);
  }

  lemma InsertRowKeepsRows(c: Chain, s: State, t: State, r: Row)
    requires ValidChain(c) && RowsInv(c, s) && InsertRowStep(c, s, t, r)
    ensures RowsInv(c, t)
  {
  }

  lemma EnterTable(c: Chain, s: State, w: Window, k: nat, unsaved: set<Row>)
    requires ValidChain(c) && RowsInv(c, s) && WindowOk(s, w, 1) && k < TABLES
    requires TablesSaved(c, s.rows, HeadNum(s), w.next, k, unsaved)
    ensures RowsInv(c, s.(phase := SavingTable(w, k, unsaved)))
  {
  }

  lemma LastTablesKeepRows(c: Chain, s: State, t: State)
    requires ValidChain(c) && RowsInv(c, s) && TableSavedStep(c, s, t)
    requires s.phase.k == SaveOrder(InternalTx) || s.phase.k == SaveOrder(Block)
    ensures RowsInv(c, t)
  {
  }

  /** The next table of the save begins, with `unsaved` as its rows. */
  lemma NextTableKeepsRows(c: Chain, s: State, t: State, unsaved: set<Row>)
    requires ValidChain(c) && RowsInv(c, s) && s.phase.SavingTable? && s.phase.k + 1 < TABLES
    requires t == s.(phase := SavingTable(s.phase.w, s.phase.k + 1, unsaved))
    requires TablesSaved(c, s.rows, HeadNum(s), s.phase.w.next, s.phase.k + 1, unsaved)
    ensures RowsInv(c, t)
  {
    EnterTable(c, s, s.phase.w, s.phase.k + 1, unsaved);
  }

  lemma TableSavedKeepsRows(c: Chain, s: State, t: State)
    requires ValidChain(c) && RowsInv(c, s) && TableSavedStep(c, s, t)
    ensures RowsInv(c, t)
  {
    var w, k := s.phase.w, s.phase.k;
    if k == SaveOrder(InternalTx) || k == SaveOrder(Block) {
      LastTablesKeepRows(c, s, t);
    } else {
      NextTableStarts(c, s.rows, HeadNum(s), w.next, k);
      NextTableKeepsRows(c, s, t, WindowRows(c, HeadNum(s) + 1, w.next, k + 1));
    }
  }

  lemma AccountsSavedKeepsRows(c: Chain, s: State, t: State)
    requires ValidChain(c) && RowsInv(c, s) && AccountsSavedStep(c, s, t)
    ensures RowsInv(c, t)
  {
    var w, k := s.phase.w, SaveOrder(Block);
    NextTableStarts(c, s.rows, HeadNum(s), w.next, SaveOrder(InternalTx));
    EnterTable(c, s, w, k, WindowRows(c, HeadNum(s) + 1, w.next, k));
  }

  lemma UpdateHeadKeepsRows(c: Chain, s: State, t: State)
    requires ValidChain(c) && RowsInv(c, s) && UpdateHeadStep(c, s, t)
    ensures RowsInv(c, t) && HeadNum(s) < HeadNum(t)
  {
    WindowComplete(c, s.rows, HeadNum(s), s.phase.w.next);
  }

  lemma SaveStepKeepsRows(c: Chain, s: State, t: State, step: Step)
    requires ValidChain(c) && RowsInv(c, s) && NextStep(c, s, t, step)
    requires step.EndBlock? || step.InsertRow? || step.TableSaved? || step.AccountsSaved? || step.UpdateHead?
    ensures RowsInv(c, t) && HeadNum(s) <= HeadNum(t)
  {
    match step
    case EndBlock => EndBlockKeepsRows(c, s, t);
    case InsertRow(r) => InsertRowKeepsRows(c, s, t, r);
    case TableSaved => TableSavedKeepsRows(c, s, t);
    case AccountsSaved => AccountsSavedKeepsRows(c, s, t);
    case UpdateHead => UpdateHeadKeepsRows(c, s, t);
  }

  /** Only a crash can leave a row, and only before the first head. */
  lemma StepKeepsRows(c: Chain, s: State, t: State, step: Step)
    requires ValidChain(c) && RowsInv(c, s) && NextStep(c, s, t, step)
    ensures RowsInv(c, t) || (step.Crash? && s.head.None? && TablesBlocked(c, t))
    ensures HeadNum(s) <= HeadNum(t)
  {
    if step.Crash? {
      CrashKeepsRows(c, s, t);
    } else if step.EndBlock? || step.InsertRow? || step.TableSaved? || step.AccountsSaved? || step.UpdateHead? {
      SaveStepKeepsRows(c, s, t, step);
    } else {
      QuietStepKeepsRows(c, s, t, step);
    }
  }

  // ---------------------------------------------------------------------------
  // Main results: every reachable state of every run with crashes
  // ---------------------------------------------------------------------------

  /** What every step keeps, from a database at rest and from an empty one. */
  ghost predicate RowsOk(c: Chain, s: State)
    requires ValidChain(c)
  {
    RowsInv(c, s) || TablesBlocked(c, s)
  }

  lemma NextKeepsLeftRow(c: Chain, s: State, t: State, r: Row)
    requires ValidChain(c) && LeftRow(c, s, r) && Next(c, s, t)
    ensures LeftRow(c, t, r)
  {
    var step :| NextStep(c, s, t, step);
    LeftRowStays(c, s, t, step, r);
  }

  lemma NextKeepsRows(c: Chain, s: State, t: State)
    requires ValidChain(c) && RowsOk(c, s) && Next(c, s, t)
    ensures RowsOk(c, t) && HeadNum(s) <= HeadNum(t)
  {
    if RowsInv(c, s) {
      var step :| NextStep(c, s, t, step);
      StepKeepsRows(c, s, t, step);
    } else {
      var r :| LeftRow(c, s, r);
      NextKeepsLeftRow(c, s, t, r);
    }
  }

  lemma {:induction false} RunsKeepRows(c: Chain, run: seq<State>, i: nat)
    requires ValidChain(c) && IsRun(c, run) && Starts(c, run[0]) && i < |run|
    ensures RowsOk(c, run[i])
  {
    if i > 0 {
      RunsKeepRows(c, run, i - 1);
      NextKeepsRows(c, run[i - 1], run[i]);
    }
  }

  /** Between the end of the cleanup of the tables and the first write of the next save. */
  predicate TablesAtRest(p: Phase) {
    p.FixingLate? || p.FixingNegative? || p.Waiting? || p.Genesis? || p.Importing? || p.Touching?
  }

  /** Restart crash consistency of the tables. Before the first head the tables are empty between saves,
      unless a crash has left a row that blocks every later import. */
  lemma TablesAreCrashConsistent(c: Chain, run: seq<State>, i: nat)
    requires ValidChain(c) && IsRun(c, run) && Starts(c, run[0]) && i < |run|
    ensures var s := run[i];
            && (forall r: Row :: r.num <= HeadNum(s) ==> (r in s.rows <==> Imported(c, HeadNum(s), r)))
            && (TablesAtRest(s.phase) ==>
                  (forall r :: r in s.rows <==> Imported(c, HeadNum(s), r)) || (s.head.None? && TablesBlocked(c, s)))
  {
    RunsKeepRows(c, run, i);
  }

  /** A bulk insert meets a row that is already stored only when such a row is in the way. */
  lemma NoDuplicateKeys(c: Chain, run: seq<State>, i: nat)
    requires ValidChain(c) && IsRun(c, run) && Starts(c, run[0]) && i < |run| && run[i].phase.SavingTable?
    ensures run[i].phase.unsavedRows !! run[i].rows || (run[i].head.None? && TablesBlocked(c, run[i]))
  {
    RunsKeepRows(c, run, i);
  }

  lemma HeadGoesUp(c: Chain, run: seq<State>, j: nat)
    requires ValidChain(c) && IsRun(c, run) && Starts(c, run[0]) && 0 < j < |run|
    ensures HeadNum(run[j - 1]) <= HeadNum(run[j])
  {
    RunsKeepRows(c, run, j - 1);
    NextKeepsRows(c, run[j - 1], run[j]);
  }

  ghost predicate HeadsGoUp(run: seq<State>) {
    forall k :: 0 < k < |run| ==> HeadNum(run[k - 1]) <= HeadNum(run[k])
  }

  lemma {:induction false} HeadsGoUpFrom(run: seq<State>, i: nat, j: nat)
    requires HeadsGoUp(run) && i <= j < |run|
    ensures HeadNum(run[i]) <= HeadNum(run[j])
    decreases j
  {
    if i < j {
      HeadsGoUpFrom(run, i, j - 1);
    }
  }

  lemma HeadNeverDecreases(c: Chain, run: seq<State>, i: nat, j: nat)
    requires ValidChain(c) && IsRun(c, run) && Starts(c, run[0]) && i <= j < |run|
    ensures HeadNum(run[i]) <= HeadNum(run[j])
  {
    forall k | 0 < k < |run|
      ensures HeadNum(run[k - 1]) <= HeadNum(run[k])
    {
      HeadGoesUp(c, run, k);
    }
    HeadsGoUpFrom(run, i, j);
  }

  /** A row left before the first head is there for ever, and no head is ever stored. */
  lemma {:induction false} LeftRowIsForEver(c: Chain, run: seq<State>, r: Row, i: nat)
    requires ValidChain(c) && IsRun(c, run) && LeftRow(c, run[0], r) && i < |run|
    ensures LeftRow(c, run[i], r) && run[i].head.None? && r in run[i].rows
  {
    if i > 0 {
      LeftRowIsForEver(c, run, r, i - 1);
      NextKeepsLeftRow(c, run[i - 1], run[i], r);
    }
  }
}
