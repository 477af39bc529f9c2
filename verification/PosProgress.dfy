/**
 The PoS importer makes progress once a head is stored or its first round is on. While the chain stands still, every
 own step of the process brings it nearer to a head at the best block, whatever crashes came before, and until it is
 there it has a next step.
 */
module PosProgress {
  import opened Common
  import opened PosImport
  import opened PosTables

  /** A step of the process itself: the chain does not grow, and nothing dies. */
  predicate IsOwn(step: Step) {
    !step.Grow? && !step.Crash?
  }

  /** A block of the window is left to fetch, and the accounts to be repaired are stored ones. */
  predicate Underway(s: State) {
    match s.phase
    case Importing(w) => w.next <= w.end
    case FixingLate(late) => late <= s.accts.Keys
    case FixingNegative(negative) => negative <= s.accts.Keys
    case _ => true
  }

  lemma StepKeepsUnderway(c: Chain, s: State, t: State, step: Step)
    requires ValidChain(c) && Underway(s) && NextStep(c, s, t, step)
    ensures Underway(t)
  {
  }

  lemma {:induction false} RunsKeepUnderway(c: Chain, run: seq<State>, i: nat)
    requires ValidChain(c) && IsRun(c, run) && Starts(c, run[0]) && i < |run|
    ensures Underway(run[i])
  {
    if i > 0 {
      RunsKeepUnderway(c, run, i - 1);
      assert Next(c, run[i - 1], run[i]);
      var step :| NextStep(c, run[i - 1], run[i], step);
      StepKeepsUnderway(c, run[i - 1], run[i], step);
    }
  }

  // ---------------------------------------------------------------------------
  // A measure that every step lowers
  // ---------------------------------------------------------------------------

  function Stage(s: State): nat {
    match s.phase
    case Down => 9
    case Cleaning(_) => 8
    case FixingLate(_) => 7
    case FixingNegative(_) => 6
    case Waiting => 5
    case Genesis(_, _) => 4
    case Importing(_) => 3
    case Touching(_, _) => 3
    case SavingTable(_, _, _) => 2
    case SavingAccounts(_, _) => 2
    case SavingHead(_) => 1
  }

  function Turns(s: State): nat {
    match s.phase
    case Cleaning(k) => if k < TABLES then TABLES - k else 0
    case Importing(w) => if w.next <= w.end then 2 * (w.end + 1 - w.next) + 1 else 1
    case Touching(w, _) => if w.next <= w.end then 2 * (w.end + 1 - w.next) else 0
    case SavingTable(_, k, _) => if k < SaveOrder(Block) then TABLES + 2 - k else 1
    case SavingAccounts(_, _) => 2
    case _ => 0
  }

  function Items(s: State): nat {
    match s.phase
    case Cleaning(_) => |s.rows|
    case FixingLate(late) => |late|
    case FixingNegative(negative) => |negative|
    case Touching(_, untouched) => |untouched|
    case SavingTable(_, _, unsaved) => |unsaved|
    case SavingAccounts(_, unsaved) => |unsaved|
    case Genesis(left, made) => 2 * |left| + (if made.Some? then 1 else 0)
    case _ => 0
  }

  /** The head is higher, or the same round is further. */
  predicate Nearer(t: State, s: State) {
    || HeadNum(t) > HeadNum(s)
    || (HeadNum(t) == HeadNum(s)
        && (|| Stage(t) < Stage(s)
            || (Stage(t) == Stage(s)
                && (Turns(t) < Turns(s) || (Turns(t) == Turns(s) && Items(t) < Items(s))))))
  }

  /** A head is stored, or the first round is on. */
  ghost predicate Alive(c: Chain, s: State)
    requires ValidChain(c)
  {
    RowsInv(c, s) && Underway(s) && (s.head.Some? || GenesisIsDone(s.phase))
  }

  lemma ItemLess<T>(x: T, items: set<T>)
    requires x in items
    ensures |items - {x}| < |items|
  {
  }

  /** One item less of what the phase works through. */
  predicate OneLess(after: Phase, before: Phase) {
    match before
    case FixingLate(late) => after.FixingLate? && |after.late| < |late|
    case FixingNegative(negative) => after.FixingNegative? && |after.negative| < |negative|
    case Touching(w, untouched) => after.Touching? && after.w == w && |after.untouched| < |untouched|
    case SavingTable(w, k, unsaved) =>
      after.SavingTable? && after.w == w && after.k == k && |after.unsavedRows| < |unsaved|
    case SavingAccounts(w, unsaved) => after.SavingAccounts? && after.w == w && |after.unsaved| < |unsaved|
    case _ => false
  }

  lemma OneLessIsNearer(s: State, t: State)
    requires OneLess(t.phase, s.phase) && t.head == s.head
    ensures Nearer(t, s)
  {
  }

  /** The steps that take one item at a time. */
  lemma ItemStepIsOneLess(c: Chain, s: State, t: State, step: Step)
    requires ValidChain(c) && NextStep(c, s, t, step)
    requires step.FixLate? || step.FixNegative? || step.Touch? || step.InsertRow? || step.SaveAccount?
    ensures OneLess(t.phase, s.phase) && t.head == s.head
  {
    match step
    case FixLate(a) => ItemLess(a, s.phase.late);
    case FixNegative(a) => ItemLess(a, s.phase.negative);
    case Touch(a) => ItemLess(a, s.phase.untouched);
    case InsertRow(r) => ItemLess(r, s.phase.unsavedRows);
    case SaveAccount(a) => ItemLess(a, s.phase.unsaved);
  }

  lemma CleaningIsNearer(c: Chain, s: State, t: State, step: Step)
    requires ValidChain(c) && RowsInv(c, s) && NextStep(c, s, t, step) && (step.DeleteRow? || step.TableCleaned?)
    ensures Nearer(t, s)
  {
    if step.DeleteRow? {
      ItemLess(step.row, s.rows);
    }
  }

  lemma TurnIsNearer(c: Chain, s: State, t: State, step: Step)
    requires ValidChain(c) && Alive(c, s) && NextStep(c, s, t, step)
    requires step.Restart? || step.LateFixed? || step.NegativeFixed? || step.BeginRound? || step.StartBlock?
    ensures Nearer(t, s)
  {
  }

  lemma SaveTurnIsNearer(c: Chain, s: State, t: State, step: Step)
    requires ValidChain(c) && Alive(c, s) && NextStep(c, s, t, step)
    requires step.EndBlock? || step.TableSaved? || step.AccountsSaved? || step.UpdateHead?
    ensures Nearer(t, s)
  {
  }

  /** Whatever own step is taken, it gets nearer, unless the head was at the best block already. */
  lemma OwnStepIsNearer(c: Chain, s: State, t: State, step: Step)
    requires ValidChain(c) && Alive(c, s) && HeadNum(s) < s.best && IsOwn(step) && NextStep(c, s, t, step)
    ensures Alive(c, t) && t.best == s.best && Nearer(t, s) && HeadNum(s) <= HeadNum(t)
  {
    StepKeepsRows(c, s, t, step);
    StepKeepsUnderway(c, s, t, step);
    if step.DeleteRow? || step.TableCleaned? {
      CleaningIsNearer(c, s, t, step);
    } else if step.FixLate? || step.FixNegative? || step.Touch? || step.InsertRow? || step.SaveAccount? {
      ItemStepIsOneLess(c, s, t, step);
      OneLessIsNearer(s, t);
    } else if step.EndBlock? || step.TableSaved? || step.AccountsSaved? || step.UpdateHead? {
      SaveTurnIsNearer(c, s, t, step);
    } else {
      TurnIsNearer(c, s, t, step);
    }
  }

  /** Until then there is a step to take. */
  lemma OwnStepExists(c: Chain, s: State) returns (t: State, step: Step)
    requires ValidChain(c) && Alive(c, s) && HeadNum(s) < s.best
    ensures IsOwn(step) && NextStep(c, s, t, step)
  {
    var h := HeadNum(s);
    match s.phase
    case Down =>
      t, step := s.(phase := Cleaning(0)), Restart;
    case Cleaning(_) => t, step := CleanOn(c, s);
    case FixingLate(_) => t, step := FixOn(c, s);
    case FixingNegative(_) => t, step := FixOn(c, s);
    case Waiting =>
      var end := if h + LOOP_WINDOW > s.best then s.best else h + LOOP_WINDOW;
      t, step := s.(phase := Importing(Window(h + 1, end, end < s.best))), BeginRound;
    case Importing(w) =>
      t, step := s.(phase := Touching(w, c[w.next].deltas.Keys)), StartBlock;
    case Touching(_, _) => t, step := TouchOn(c, s);
    case SavingTable(_, _, _) => t, step := SaveOn(c, s);
    case SavingAccounts(w, unsaved) =>
      if unsaved != {} {
        var a :| a in unsaved;
        t, step := s.(accts := s.accts[a := s.cache[a]], phase := SavingAccounts(w, unsaved - {a})), SaveAccount(a);
      } else {
        t := s.(phase := SavingTable(w, SaveOrder(Block), WindowRows(c, h + 1, w.next, SaveOrder(Block))));
        step := AccountsSaved;
      }
    case SavingHead(w) =>
      t := s.(head := Some(w.next - 1), cache := map[],
              phase := if !w.fastforward && w.next <= w.end then Importing(w) else Waiting);
      step := UpdateHead;
  }

  lemma CleanOn(c: Chain, s: State) returns (t: State, step: Step)
    requires ValidChain(c) && Alive(c, s) && s.phase.Cleaning?
    ensures IsOwn(step) && NextStep(c, s, t, step)
  {
    var k := s.phase.cleaned;
    if r :| r in s.rows && CleanOrder(r.table) == k && r.num > HeadNum(s) {
      t, step := s.(rows := s.rows - {r}), DeleteRow(r);
    } else {
      t, step := s.(phase := if k + 1 < TABLES then Cleaning(k + 1) else FixingLate(Late(s))), TableCleaned;
    }
  }

  lemma FixOn(c: Chain, s: State) returns (t: State, step: Step)
    requires ValidChain(c) && Alive(c, s) && (s.phase.FixingLate? || s.phase.FixingNegative?)
    ensures IsOwn(step) && NextStep(c, s, t, step)
  {
    match s.phase
    case FixingLate(late) =>
      if late != {} {
        var a :| a in late;
        t, step := s.(accts := Fixed(c, s, a), phase := FixingLate(late - {a})), FixLate(a);
      } else {
        t, step := s.(phase := FixingNegative(Negatives(s))), LateFixed;
      }
    case FixingNegative(negative) =>
      if negative != {} {
        var a :| a in negative;
        t, step := s.(accts := Fixed(c, s, a), phase := FixingNegative(negative - {a})), FixNegative(a);
      } else {
        t, step := s.(phase := Waiting), NegativeFixed;
      }
  }

  lemma TouchOn(c: Chain, s: State) returns (t: State, step: Step)
    requires ValidChain(c) && Alive(c, s) && s.phase.Touching?
    ensures IsOwn(step) && NextStep(c, s, t, step)
  {
    var w, untouched := s.phase.w, s.phase.untouched;
    if untouched != {} {
      var a :| a in untouched;
      var acct := Default(s, a, w.next);
      t, step := s.(accts := if a in s.cache then s.accts else s.accts[a := acct],
                    cache := s.cache[a := Acct(Add(acct.bal, c[w.next].deltas[a]), w.next)],
                    phase := Touching(w, untouched - {a})), Touch(a);
    } else {
      var w' := w.(next := w.next + 1);
      t := s.(phase := if w'.fastforward && w'.next <= w'.end then Importing(w')
                       else SavingTable(w', 0, WindowRows(c, HeadNum(s) + 1, w'.next, 0)));
      step := EndBlock;
    }
  }

  lemma SaveOn(c: Chain, s: State) returns (t: State, step: Step)
    requires ValidChain(c) && Alive(c, s) && s.phase.SavingTable?
    ensures IsOwn(step) && NextStep(c, s, t, step)
  {
    var w, k, unsaved := s.phase.w, s.phase.k, s.phase.unsavedRows;
    if unsaved != {} {
      var r :| r in unsaved;
      t, step := s.(rows := s.rows + {r}, phase := SavingTable(w, k, unsaved - {r})), InsertRow(r);
      assert r !in s.rows;
    } else {
      t := s.(phase := if k == SaveOrder(InternalTx) then SavingAccounts(w, s.cache.Keys)
                       else if k == SaveOrder(Block) then SavingHead(w)
                       else SavingTable(w, k + 1, WindowRows(c, HeadNum(s) + 1, w.next, k + 1)));
      step := TableSaved;
    }
  }

  // ---------------------------------------------------------------------------
  // Main result
  // ---------------------------------------------------------------------------

  ghost predicate OwnNext(c: Chain, s: State, t: State)
    requires ValidChain(c)
  {
    exists step :: IsOwn(step) && NextStep(c, s, t, step)
  }

  ghost predicate OwnRun(c: Chain, run: seq<State>)
    requires ValidChain(c)
  {
    run != [] && forall i :: 0 < i < |run| ==> OwnNext(c, run[i - 1], run[i])
  }

  lemma OwnThen(c: Chain, s: State, run: seq<State>)
    requires ValidChain(c) && OwnRun(c, run) && OwnNext(c, s, run[0])
    ensures OwnRun(c, [s] + run)
  {
    var all := [s] + run;
    forall i | 0 < i < |all|
      ensures OwnNext(c, all[i - 1], all[i])
    {
      if i > 1 {
        assert all[i - 1] == run[i - 2] && all[i] == run[i - 1];
        assert OwnNext(c, run[i - 2], run[i - 1]);
      }
    }
  }

  lemma {:induction false} RunToBest(c: Chain, s: State) returns (run: seq<State>)
    requires ValidChain(c) && Alive(c, s)
    ensures OwnRun(c, run) && run[0] == s
    ensures var last := run[|run| - 1]; Alive(c, last) && last.best == s.best && last.head == Some(s.best)
    decreases s.best - HeadNum(s), Stage(s), Turns(s), Items(s)
  {
    if s.head == Some(s.best) {
      run := [s];
    } else {
      var t, step := OwnStepExists(c, s);
      OwnStepIsNearer(c, s, t, step);
      var rest := RunToBest(c, t);
      assert OwnNext(c, s, t);
      OwnThen(c, s, rest);
      run := [s] + rest;
    }
  }

  /** From any state of any run in which a head is stored, crashed ones included, the importer's own steps lead to a
      head at the best block, with the rows of a fault-free import up to it. */
  lemma ImporterCatchesUp(c: Chain, run: seq<State>, i: nat) returns (more: seq<State>)
    requires ValidChain(c) && IsRun(c, run) && Starts(c, run[0]) && i < |run| && run[i].head.Some?
    ensures OwnRun(c, more) && more[0] == run[i]
    ensures var last := more[|more| - 1];
            && last.best == run[i].best && last.head == Some(last.best)
            && forall r :: Imported(c, last.best, r) ==> r in last.rows
  {
    RunsKeepRows(c, run, i);
    RunsKeepUnderway(c, run, i);
    more := RunToBest(c, run[i]);
  }
}
