/**
 The PoS importer before its first head. An import that is left alone stores a head; a crash within it either
 changes nothing or blocks every later import; and exactly on the chains that are not safe can it spoil the
 accounts.
 */
module PosFirstImport {
  import opened Common
  import opened PosImport
  import opened PosTables
  import opened PosAccounts
  import opened PosProgress

  // ---------------------------------------------------------------------------
  // An import that is left alone ends
  // ---------------------------------------------------------------------------

  /** Within a round of the first import. */
  ghost predicate InRound(c: Chain, s: State)
    requires ValidChain(c)
  {
    RowsInv(c, s) && s.head.None? && GenesisIsDone(s.phase)
  }

  /** A state of the first round, begun with the present best block, that some step of it leaves. */
  ghost predicate Ready(c: Chain, s: State)
    requires ValidChain(c)
  {
    && InRound(c, s)
    && (s.phase.w.fastforward <==> s.best >= LOOP_WINDOW)
    && (s.phase.Importing? ==> s.phase.w.next <= s.phase.w.end)
  }

  /** The next step of the round, unless it is the head's. */
  lemma ImportOn(c: Chain, s: State) returns (t: State, step: Step)
    requires ValidChain(c) && Ready(c, s) && !s.phase.SavingHead?
    ensures IsImport(step) && !step.UpdateHead? && NextStep(c, s, t, step) && Nearer(t, s)
    ensures Ready(c, t) && t.head == s.head && t.best == s.best
  {
    t, step := OwnStepExists(c, s);
    OwnStepIsNearer(c, s, t, step);
    StaysInRound(c, s, t, step);
  }

  lemma StaysInRound(c: Chain, s: State, t: State, step: Step)
    requires ValidChain(c) && GenesisIsDone(s.phase) && NextStep(c, s, t, step) && IsImport(step) && !step.UpdateHead?
    ensures GenesisIsDone(t.phase) && t.head == s.head && t.best == s.best
    ensures t.phase.w.fastforward == s.phase.w.fastforward
  {
  }

  ghost predicate ImportNext(c: Chain, s: State, t: State)
    requires ValidChain(c)
  {
    exists step :: IsImport(step) && NextStep(c, s, t, step)
  }

  /** A stretch of a run with steps of the round only. */
  ghost predicate ImportRun(c: Chain, run: seq<State>)
    requires ValidChain(c)
  {
    run != [] && forall i :: 0 < i < |run| ==> ImportNext(c, run[i - 1], run[i])
  }

  lemma ImportRunCons(c: Chain, s: State, run: seq<State>)
    requires ValidChain(c) && ImportRun(c, run) && ImportNext(c, s, run[0])
    ensures ImportRun(c, [s] + run)
  {
    var all := [s] + run;
    forall i | 0 < i < |all|
      ensures ImportNext(c, all[i - 1], all[i])
    {
      if i > 1 {
        assert all[i - 1] == run[i - 2] && all[i] == run[i - 1];
      }
    }
  }

  /** From anywhere in the first round, as far as the moment before the head is stored. */
  lemma {:induction false} ImportToEnd(c: Chain, s: State) returns (run: seq<State>)
    requires ValidChain(c) && Ready(c, s)
    ensures ImportRun(c, run) && run[0] == s
    ensures var last := run[|run| - 1]; Ready(c, last) && last.phase.SavingHead? && last.best == s.best
    decreases Stage(s), Turns(s), Items(s)
  {
    if s.phase.SavingHead? {
      run := [s];
    } else {
      var t, step := ImportOn(c, s);
      var rest := ImportToEnd(c, t);
      assert ImportNext(c, s, t);
      ImportRunCons(c, s, rest);
      run := [s] + rest;
    }
  }

  /** A window without rows before its accounts is written to the accounts before the first row. */
  lemma {:induction false} ImportToBlocks(c: Chain, s: State) returns (run: seq<State>)
    requires ValidChain(c) && Ready(c, s) && s.rows == {} && BeforeBlocks(s)
    requires forall r :: Imported(c, WindowSize(s.best) - 1, r) ==> r.table == Block
    ensures ImportRun(c, run) && run[0] == s
    ensures var last := run[|run| - 1];
            && Ready(c, last) && last.rows == {} && last.best == s.best
            && last.phase.SavingTable? && last.phase.k == SaveOrder(Block)
    decreases Stage(s), Turns(s), Items(s)
  {
    var t, step := ImportOn(c, s);
    NoRowYet(c, s, t, step);
    assert ImportNext(c, s, t);
    if BeforeBlocks(t) {
      var rest := ImportToBlocks(c, t);
      ImportRunCons(c, s, rest);
      run := [s] + rest;
    } else {
      assert ImportRun(c, [t]);
      ImportRunCons(c, s, [t]);
      run := [s, t];
      assert run == [s] + [t];
    }
  }

  predicate BeforeBlocks(s: State) {
    !s.phase.SavingHead? && !(s.phase.SavingTable? && s.phase.k == SaveOrder(Block))
  }

  /** How many blocks the first save holds, near the best block and far from it. */
  function WindowSize(best: nat): nat {
    if best >= LOOP_WINDOW then LOOP_WINDOW else 1
  }

  lemma NoRowYet(c: Chain, s: State, t: State, step: Step)
    requires ValidChain(c) && Ready(c, s) && s.rows == {} && BeforeBlocks(s)
    requires NextStep(c, s, t, step) && IsImport(step)
    requires Ready(c, t) && t.head == s.head && t.best == s.best
    requires forall r :: Imported(c, WindowSize(s.best) - 1, r) ==> r.table == Block
    ensures t.rows == {}
  {
  }

  // ---------------------------------------------------------------------------
  // Whole first imports
  // ---------------------------------------------------------------------------

  /** The steps of a new process, up to its head. */
  predicate IsFirst(step: Step) {
    || IsImport(step) || step.Restart? || step.BeginGenesis? || step.CreateGenesis? || step.SaveGenesis?
    || step.BeginRound?
  }

  ghost predicate QuietNext(c: Chain, s: State, t: State)
    requires ValidChain(c)
  {
    exists step :: IsFirst(step) && NextStep(c, s, t, step)
  }

  ghost predicate QuietRun(c: Chain, run: seq<State>)
    requires ValidChain(c)
  {
    run != [] && forall i :: 0 < i < |run| ==> QuietNext(c, run[i - 1], run[i])
  }

  lemma QuietIsRun(c: Chain, run: seq<State>)
    requires ValidChain(c) && QuietRun(c, run)
    ensures IsRun(c, run)
  {
    forall i | 0 < i < |run|
      ensures Next(c, run[i - 1], run[i])
    {
      assert QuietNext(c, run[i - 1], run[i]);
    }
  }

  lemma ImportIsQuiet(c: Chain, run: seq<State>)
    requires ValidChain(c) && ImportRun(c, run)
    ensures QuietRun(c, run)
  {
    forall i | 0 < i < |run|
      ensures QuietNext(c, run[i - 1], run[i])
    {
      assert ImportNext(c, run[i - 1], run[i]);
      var step :| IsImport(step) && NextStep(c, run[i - 1], run[i], step);
      assert IsFirst(step);
    }
  }

  lemma QuietThen(c: Chain, s: State, run: seq<State>)
    requires ValidChain(c) && QuietRun(c, run) && QuietNext(c, s, run[0])
    ensures QuietRun(c, [s] + run)
  {
    var all := [s] + run;
    forall i | 0 < i < |all|
      ensures QuietNext(c, all[i - 1], all[i])
    {
      if i > 1 {
        assert all[i - 1] == run[i - 2] && all[i] == run[i - 1];
      }
    }
  }

  /** Two stretches that meet in a state. */
  lemma JoinQuiet(c: Chain, a: seq<State>, b: seq<State>) returns (run: seq<State>)
    requires ValidChain(c) && QuietRun(c, a) && QuietRun(c, b) && a[|a| - 1] == b[0]
    ensures QuietRun(c, run) && run[0] == a[0] && run[|run| - 1] == b[|b| - 1] && |run| >= |b|
    ensures |b| > 1 ==> run[|run| - 2] == b[|b| - 2]
  {
    var n := |a| - 1;
    run := a[..n] + b;
    forall i | 0 < i < |run|
      ensures QuietNext(c, run[i - 1], run[i])
    {
      if i <= n {
        assert run[i - 1] == a[i - 1] && run[i] == a[i];
        assert QuietNext(c, a[i - 1], a[i]);
      } else {
        assert run[i - 1] == b[i - n - 1] && run[i] == b[i - n];
        assert QuietNext(c, b[i - n - 1], b[i - n]);
      }
    }
  }

  lemma JoinRuns(c: Chain, a: seq<State>, b: seq<State>) returns (run: seq<State>)
    requires ValidChain(c) && IsRun(c, a) && IsRun(c, b) && Next(c, a[|a| - 1], b[0])
    ensures IsRun(c, run) && run[0] == a[0] && run[|run| - 1] == b[|b| - 1]
  {
    run := a + b;
    forall i | 0 < i < |run|
      ensures Next(c, run[i - 1], run[i])
    {
      if i < |a| {
        assert run[i - 1] == a[i - 1] && run[i] == a[i];
      } else if i > |a| {
        assert run[i - 1] == b[i - |a| - 1] && run[i] == b[i - |a|];
      }
    }
  }

  /** Nothing is in the way of an import from the beginning. */
  ghost predicate Clear(c: Chain, s: State) {
    s.head.None? && s.best < |c| && s.rows == {} && Alloc(c).Keys !! s.accts.Keys
  }

  /** Within processGenesis, with what is left still to be created. */
  ghost predicate Allocating(c: Chain, s: State) {
    && s.head.None? && s.best < |c| && s.rows == {} && s.phase.Genesis?
    && s.phase.left <= Alloc(c).Keys && s.phase.left !! s.accts.Keys
    && (s.phase.made.Some? ==> s.phase.made.value in Alloc(c) && s.phase.made.value !in s.phase.left)
  }

  lemma GenesisOn(c: Chain, s: State) returns (t: State)
    requires ValidChain(c) && Allocating(c, s) && s.phase != Genesis({}, None)
    ensures QuietNext(c, s, t) && Allocating(c, t) && t.best == s.best && Items(t) < Items(s)
  {
    if s.phase.made.Some? {
      var a := s.phase.made.value;
      t := s.(accts := s.accts[a := Acct(Balance(Alloc(c)[a].mtr, Alloc(c)[a].mtrg, 0, 0), 0)],
              phase := Genesis(s.phase.left, None));
      assert IsFirst(SaveGenesis) && NextStep(c, s, t, SaveGenesis);
    } else {
      var a :| a in s.phase.left;
      ItemLess(a, s.phase.left);
      t := s.(accts := s.accts[a := Acct(ZERO_BALANCE, 0)], phase := Genesis(s.phase.left - {a}, Some(a)));
      assert IsFirst(CreateGenesis(a)) && NextStep(c, s, t, CreateGenesis(a));
    }
  }

  /** The round that follows processGenesis. */
  function FirstRound(s: State): State {
    var end := if LOOP_WINDOW - 1 > s.best then s.best else LOOP_WINDOW - 1;
    s.(phase := Importing(Window(0, end, end < s.best)))
  }

  lemma RoundOn(c: Chain, s: State)
    requires ValidChain(c) && Allocating(c, s) && s.phase == Genesis({}, None)
    ensures QuietNext(c, s, FirstRound(s)) && Ready(c, FirstRound(s))
  {
    var t := FirstRound(s);
    assert BeginRoundStep(c, s, t);
    assert IsFirst(BeginRound) && NextStep(c, s, t, BeginRound);
    assert RowsExact(c, t.rows, -1);
  }

  lemma {:induction false} GenesisToRound(c: Chain, s: State) returns (run: seq<State>)
    requires ValidChain(c) && Allocating(c, s)
    ensures QuietRun(c, run) && run[0] == s
    ensures var last := run[|run| - 1];
            Ready(c, last) && last.phase.Importing? && last.rows == {} && last.best == s.best
    decreases Items(s)
  {
    if s.phase == Genesis({}, None) {
      RoundOn(c, s);
      QuietThen(c, s, [FirstRound(s)]);
      run := [s] + [FirstRound(s)];
    } else {
      var t := GenesisOn(c, s);
      var rest := GenesisToRound(c, t);
      QuietThen(c, s, rest);
      run := [s] + rest;
    }
  }

  lemma DownToRound(c: Chain, s: State) returns (run: seq<State>)
    requires ValidChain(c) && Clear(c, s) && s.phase.Down?
    ensures QuietRun(c, run) && run[0] == s
    ensures var last := run[|run| - 1];
            Ready(c, last) && last.phase.Importing? && last.rows == {} && last.best == s.best
  {
    var up := s.(phase := Waiting);
    var t := s.(phase := Genesis(Alloc(c).Keys, None));
    assert IsFirst(Restart) && NextStep(c, s, up, Restart);
    assert IsFirst(BeginGenesis) && NextStep(c, up, t, BeginGenesis);
    var rest := GenesisToRound(c, t);
    QuietThen(c, up, rest);
    QuietThen(c, s, [up] + rest);
    run := [s] + ([up] + rest);
  }

  /** What the head step makes of a completed save. */
  function HeadStored(s: State): State
    requires s.phase.SavingHead? && s.phase.w.next > 0
  {
    var w := s.phase.w;
    s.(head := Some(w.next - 1), cache := map[],
       phase := if !w.fastforward && w.next <= w.end then Importing(w) else Waiting)
  }

  lemma HeadOn(c: Chain, s: State)
    requires ValidChain(c) && Ready(c, s) && s.phase.SavingHead?
    ensures s.phase.w.next > 0 && QuietNext(c, s, HeadStored(s))
  {
    assert IsFirst(UpdateHead) && NextStep(c, s, HeadStored(s), UpdateHead);
  }

  /** An import that is left alone stores the head of the first window. */
  lemma LeftAloneStoresHead(c: Chain, s: State) returns (run: seq<State>)
    requires ValidChain(c) && Clear(c, s) && s.phase.Down?
    ensures QuietRun(c, run) && run[0] == s && |run| > 1
    ensures run[|run| - 1].head == Some(WindowSize(s.best) - 1)
    ensures var last := run[|run| - 2]; Ready(c, last) && last.phase.SavingHead? && run[|run| - 1] == HeadStored(last)
  {
    var up := DownToRound(c, s);
    var round := ImportToEnd(c, up[|up| - 1]);
    var last := round[|round| - 1];
    ImportIsQuiet(c, round);
    HeadOn(c, last);
    QuietThen(c, last, [HeadStored(last)]);
    var saved := JoinQuiet(c, round, [last] + [HeadStored(last)]);
    run := JoinQuiet(c, up, saved);
  }

  // ---------------------------------------------------------------------------
  // What a crash before the first head does
  // ---------------------------------------------------------------------------

  lemma {:induction false} BlockedIsForEver(c: Chain, run: seq<State>, i: nat)
    requires ValidChain(c) && IsRun(c, run) && Blocked(c, run[0]) && i < |run|
    ensures Blocked(c, run[i]) && run[i].head.None?
  {
    if i > 0 {
      BlockedIsForEver(c, run, i - 1);
      NextKeepsBlocked(c, run[i - 1], run[i]);
    }
    BlockedHasNoHead(c, run[i]);
  }

  /** Some continuation stores a head. */
  ghost predicate CanStoreHead(c: Chain, s: State)
    requires ValidChain(c)
  {
    exists run: seq<State> :: IsRun(c, run) && run[0] == s && run[|run| - 1].head.Some?
  }

  /** After a crash before the first head, a head can still be stored exactly if no row and no allocated account
      was left. */
  lemma HeadStoredIff(c: Chain, run: seq<State>, i: nat)
    requires ValidChain(c) && IsRun(c, run) && i < |run| && run[0].best < |c| && run[0] == Empty(run[0].best)
    requires run[i].phase.Down? && run[i].head.None?
    ensures CanStoreHead(c, run[i]) <==> run[i].rows == {} && Alloc(c).Keys !! run[i].accts.Keys
  {
    var s := run[i];
    RunsKeepRows(c, run, i);
    BestOnChain(c, run, i);
    if s.rows == {} && Alloc(c).Keys !! s.accts.Keys {
      var more := LeftAloneStoresHead(c, s);
      QuietIsRun(c, more);
    } else {
      SomethingLeft(c, s);
      if CanStoreHead(c, s) {
        var more: seq<State> :| IsRun(c, more) && more[0] == s && more[|more| - 1].head.Some?;
        BlockedIsForEver(c, more, |more| - 1);
      }
    }
  }

  lemma SomethingLeft(c: Chain, s: State)
    requires ValidChain(c) && RowsOk(c, s) && s.phase.Down? && s.head.None?
    requires s.rows != {} || !(Alloc(c).Keys !! s.accts.Keys)
    ensures Blocked(c, s)
  {
    if !TablesBlocked(c, s) {
      var a :| a in Alloc(c) && a in s.accts;
      assert LeftAccount(c, s, a);
    }
  }

  lemma {:induction false} BestOnChain(c: Chain, run: seq<State>, i: nat)
    requires ValidChain(c) && IsRun(c, run) && i < |run| && run[0].best < |c|
    ensures run[i].best < |c|
  {
    if i > 0 {
      BestOnChain(c, run, i - 1);
      assert Next(c, run[i - 1], run[i]);
      var step :| NextStep(c, run[i - 1], run[i], step);
    }
  }

  /** On every chain the first import can die so: all rows of the window are stored, the head is not. */
  lemma AnyFirstImportCanDie(c: Chain, best: nat) returns (run: seq<State>)
    requires ValidChain(c) && best < |c|
    ensures IsRun(c, run) && run[0] == Empty(best)
    ensures var last := run[|run| - 1]; last.phase.Down? && last.head.None? && LeftRow(c, last, Row(Block, 0, 0))
  {
    var quiet := LeftAloneStoresHead(c, Empty(best));
    var s := quiet[|quiet| - 2];
    var dead := s.(phase := Down, cache := map[]);
    QuietIsRun(c, quiet);
    assert IsRun(c, quiet[..|quiet| - 1]);
    assert NextStep(c, s, dead, Crash);
    assert IsRun(c, [dead]);
    run := JoinRuns(c, quiet[..|quiet| - 1], [dead]);
    assert Imported(c, s.phase.w.next - 1, Row(Block, 0, 0));
  }
}
