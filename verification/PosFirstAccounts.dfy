/**
 When the first import of the PoS importer can get the accounts wrong: exactly when something allocated is
 bounded, or nothing is allocated and a first window changes accounts without a row to be saved before them.
 */
module PosFirstAccounts {
  import opened Common
  import opened PosImport
  import opened PosTables
  import opened PosAccounts
  import opened PosFirstImport

  // ---------------------------------------------------------------------------
  // The invariant along a run without crashes
  // ---------------------------------------------------------------------------

  lemma QuietStepKeepsAccounts(c: Chain, s: State, t: State)
    requires ValidChain(c) && AccountsInv(c, s) && QuietNext(c, s, t)
    requires s.head.None? ==> NothingBounded(c)
    ensures AccountsInv(c, t)
  {
    var step :| IsFirst(step) && NextStep(c, s, t, step);
    StepKeepsRows(c, s, t, step);
    if IsImport(step) {
      ImportStepKeepsAccounts(c, s, t, step);
    } else {
      OtherStepKeepsAccounts(c, s, t, step);
    }
  }

  lemma {:induction false} QuietKeepsAccounts(c: Chain, run: seq<State>, i: nat)
    requires ValidChain(c) && QuietRun(c, run) && AccountsInv(c, run[0]) && NothingBounded(c) && i < |run|
    ensures AccountsInv(c, run[i])
  {
    if i > 0 {
      QuietKeepsAccounts(c, run, i - 1);
      QuietStepKeepsAccounts(c, run[i - 1], run[i]);
    }
  }

  lemma ImportStepsKeepAccounts(c: Chain, s: State, t: State)
    requires ValidChain(c) && AccountsInv(c, s) && ImportNext(c, s, t)
    ensures AccountsInv(c, t)
  {
    var step :| IsImport(step) && NextStep(c, s, t, step);
    StepKeepsRows(c, s, t, step);
    ImportStepKeepsAccounts(c, s, t, step);
  }

  lemma {:induction false} ImportKeepsAccounts(c: Chain, run: seq<State>, i: nat)
    requires ValidChain(c) && ImportRun(c, run) && AccountsInv(c, run[0]) && i < |run|
    ensures AccountsInv(c, run[i])
  {
    if i > 0 {
      ImportKeepsAccounts(c, run, i - 1);
      ImportStepsKeepAccounts(c, run[i - 1], run[i]);
    }
  }

  // ---------------------------------------------------------------------------
  // The same blocks on other balances
  // ---------------------------------------------------------------------------

  /** Two chains that differ in what is allocated only. */
  ghost predicate SameBlocks(c: Chain, d: Chain) {
    && |c| == |d|
    && forall n: nat :: n < |c| ==> c[n].rows == d[n].rows && c[n].txs == d[n].txs && c[n].deltas == d[n].deltas
  }

  function WithAlloc(c: Chain, alloc: map<Address, Balance>): Chain
    requires |c| > 0
  {
    c[0 := c[0].(alloc := alloc)]
  }

  lemma SameWindowRows(c: Chain, d: Chain, from: nat, to: nat, k: nat)
    requires ValidChain(c) && ValidChain(d) && SameBlocks(c, d) && to <= |c|
    ensures WindowRows(c, from, to, k) == WindowRows(d, from, to, k)
  {
  }

  lemma SameEndBlock(c: Chain, d: Chain, s: State, t: State)
    requires ValidChain(c) && ValidChain(d) && SameBlocks(c, d) && EndBlockStep(c, s, t)
    ensures EndBlockStep(d, s, t)
  {
    SameWindowRows(c, d, HeadNum(s) + 1, s.phase.w.next + 1, 0);
  }

  lemma SameTableSaved(c: Chain, d: Chain, s: State, t: State)
    requires ValidChain(c) && ValidChain(d) && SameBlocks(c, d) && TableSavedStep(c, s, t)
    ensures TableSavedStep(d, s, t)
  {
    SameWindowRows(c, d, HeadNum(s) + 1, s.phase.w.next, s.phase.k + 1);
  }

  lemma SameAccountsSaved(c: Chain, d: Chain, s: State, t: State)
    requires ValidChain(c) && ValidChain(d) && SameBlocks(c, d) && AccountsSavedStep(c, s, t)
    ensures AccountsSavedStep(d, s, t)
  {
    SameWindowRows(c, d, HeadNum(s) + 1, s.phase.w.next, SaveOrder(Block));
  }

  /** A round is the same on both. */
  lemma SameStep(c: Chain, d: Chain, s: State, t: State, step: Step)
    requires ValidChain(c) && ValidChain(d) && SameBlocks(c, d) && IsImport(step) && NextStep(c, s, t, step)
    ensures NextStep(d, s, t, step)
  {
    if step.EndBlock? {
      SameEndBlock(c, d, s, t);
    } else if step.TableSaved? {
      SameTableSaved(c, d, s, t);
    } else if step.AccountsSaved? {
      SameAccountsSaved(c, d, s, t);
    }
  }

  lemma SameImportStep(c: Chain, d: Chain, s: State, t: State)
    requires ValidChain(c) && ValidChain(d) && SameBlocks(c, d) && ImportNext(c, s, t)
    ensures ImportNext(d, s, t)
  {
    var step :| IsImport(step) && NextStep(c, s, t, step);
    SameStep(c, d, s, t, step);
  }

  lemma SameImport(c: Chain, d: Chain, run: seq<State>)
    requires ValidChain(c) && ValidChain(d) && SameBlocks(c, d) && ImportRun(c, run)
    ensures ImportRun(d, run)
  {
    forall i | 0 < i < |run|
      ensures ImportNext(d, run[i - 1], run[i])
    {
      assert ImportNext(c, run[i - 1], run[i]);
      SameImportStep(c, d, run[i - 1], run[i]);
    }
  }

  /** What processGenesis stores of an allocation. */
  ghost predicate SameGenesis(c: Chain, d: Chain) {
    && Alloc(c).Keys == Alloc(d).Keys
    && forall a :: a in Alloc(c) ==> Alloc(c)[a].mtr == Alloc(d)[a].mtr && Alloc(c)[a].mtrg == Alloc(d)[a].mtrg
  }

  lemma SameFirstStep(c: Chain, d: Chain, s: State, t: State)
    requires ValidChain(c) && ValidChain(d) && SameBlocks(c, d) && SameGenesis(c, d) && QuietNext(c, s, t)
    ensures QuietNext(d, s, t)
  {
    var step :| IsFirst(step) && NextStep(c, s, t, step);
    if IsImport(step) {
      assert ImportNext(c, s, t);
      SameImportStep(c, d, s, t);
      var other :| IsImport(other) && NextStep(d, s, t, other);
      assert IsFirst(other);
    } else {
      assert NextStep(d, s, t, step);
    }
  }

  lemma SameFirstRun(c: Chain, d: Chain, run: seq<State>)
    requires ValidChain(c) && ValidChain(d) && SameBlocks(c, d) && SameGenesis(c, d) && QuietRun(c, run)
    ensures QuietRun(d, run)
  {
    forall i | 0 < i < |run|
      ensures QuietNext(d, run[i - 1], run[i])
    {
      assert QuietNext(c, run[i - 1], run[i]);
      SameFirstStep(c, d, run[i - 1], run[i]);
    }
  }

  /** A difference in what is allocated stays. */
  lemma {:induction false} DifferenceStays(c: Chain, d: Chain, a: Address, extra: Balance, h: int)
    requires SameBlocks(c, d) && h < |c| && |c| > 0
    requires ChainBalance(d, -1, a) == Add(ChainBalance(c, -1, a), extra)
    ensures ChainBalance(d, h, a) == Add(ChainBalance(c, h, a), extra)
    decreases h + 1
  {
    if h >= 0 {
      DifferenceStays(c, d, a, extra, h - 1);
    }
  }

  // ---------------------------------------------------------------------------
  // The two ways to get accounts wrong
  // ---------------------------------------------------------------------------

  /** A run from an empty database to a stored head at which some account is wrong, between two saves. */
  ghost predicate Spoils(c: Chain, run: seq<State>)
    requires ValidChain(c)
  {
    && IsRun(c, run) && run[0].best < |c| && run[0] == Empty(run[0].best)
    && var last := run[|run| - 1];
       && last.head.Some? && last.head.value < |c| && (last.phase.Waiting? || last.phase.Importing?)
       && !AccountsRight(c, last.accts, last.head.value)
  }

  /** What is bounded in an allocated account is forgotten. */
  lemma BoundedIsForgotten(c: Chain, best: nat, a: Address) returns (run: seq<State>)
    requires ValidChain(c) && best < |c| && a in Alloc(c)
    requires Alloc(c)[a].mtrBounded != 0 || Alloc(c)[a].mtrgBounded != 0
    ensures Spoils(c, run)
  {
    var alloc := map x | x in Alloc(c) :: Balance(Alloc(c)[x].mtr, Alloc(c)[x].mtrg, 0, 0);
    var d := WithAlloc(c, alloc);
    run := LeftAloneStoresHead(d, Empty(best));
    SameFirstRun(d, c, run);
    QuietIsRun(c, run);
    StartsRight(d, Empty(best));
    QuietKeepsAccounts(d, run, |run| - 1);
    var last := run[|run| - 1];
    assert AccountRight(d, last.accts, last.head.value, a);
    BoundedIsWrong(c, d, last.accts, last.head.value, a);
  }

  /** An account that is right without what is bounded is wrong with it. */
  lemma BoundedIsWrong(c: Chain, d: Chain, accts: map<Address, Acct>, h: nat, a: Address)
    requires ValidChain(c) && a in Alloc(c) && h < |c| && h < |d|
    requires Alloc(c)[a].mtrBounded != 0 || Alloc(c)[a].mtrgBounded != 0
    requires d == WithAlloc(c, map x | x in Alloc(c) :: Balance(Alloc(c)[x].mtr, Alloc(c)[x].mtrg, 0, 0))
    requires AccountRight(d, accts, h, a)
    ensures !AccountRight(c, accts, h, a)
  {
    DifferenceStays(d, c, a, Balance(0, 0, Alloc(c)[a].mtrBounded, Alloc(c)[a].mtrgBounded), h);
  }

  /** After a save that died between the accounts and the first row: what the accounts have now is what the next
      import starts from. */
  lemma SecondPassFrom(c: Chain, s: State, d: Chain)
    requires ValidChain(c) && |c| > 0 && s.best < |c| && s.head.None? && s.rows == {} && s.cache == map[]
    requires d == WithAlloc(c, map a | a in s.accts :: s.accts[a].bal)
    ensures ValidChain(d) && SameBlocks(c, d)
    ensures Ready(d, FirstRound(s)) && AccountsInv(d, FirstRound(s))
  {
    var t := FirstRound(s);
    assert RowsExact(d, t.rows, -1);
  }

  /** As far as the accounts of the first window, with no row stored. */
  lemma FirstPass(c: Chain, best: nat) returns (run: seq<State>)
    requires ValidChain(c) && best < |c| && Alloc(c) == map[]
    requires forall r :: Imported(c, WindowSize(best) - 1, r) ==> r.table == Block
    ensures QuietRun(c, run) && run[0] == Empty(best)
    ensures var last := run[|run| - 1];
            && last.head.None? && last.best == best && last.rows == {}
            && WindowSize(best) <= |c| && AccountsRight(c, last.accts, WindowSize(best) - 1)
  {
    var up := DownToRound(c, Empty(best));
    var round := ImportToBlocks(c, up[|up| - 1]);
    StartsRight(c, Empty(best));
    QuietKeepsAccounts(c, up, |up| - 1);
    ImportKeepsAccounts(c, round, |round| - 1);
    ImportIsQuiet(c, round);
    run := JoinQuiet(c, up, round);
  }

  /** The import after a restart, with the balances it ends with. */
  lemma SecondPass(c: Chain, s: State, d: Chain) returns (run: seq<State>)
    requires ValidChain(c) && |c| > 0 && s.best < |c| && s.head.None? && s.rows == {} && s.cache == map[]
    requires d == WithAlloc(c, map a | a in s.accts :: s.accts[a].bal)
    ensures ImportRun(c, run) && run[0] == FirstRound(s)
    ensures var last := run[|run| - 1];
            && last.head == Some(WindowSize(s.best) - 1) && WindowSize(s.best) <= |d|
            && (last.phase.Waiting? || last.phase.Importing?)
            && AccountsRight(d, last.accts, WindowSize(s.best) - 1)
  {
    SecondPassFrom(c, s, d);
    var round := ImportToEnd(d, FirstRound(s));
    var end := round[|round| - 1];
    assert NextStep(d, end, HeadStored(end), UpdateHead) && IsImport(UpdateHead);
    assert ImportNext(d, end, HeadStored(end));
    run := ImportPush(d, round, HeadStored(end));
    ImportKeepsAccounts(d, run, |run| - 1);
    SameImport(d, c, run);
  }

  lemma ImportPush(c: Chain, run: seq<State>, t: State) returns (all: seq<State>)
    requires ValidChain(c) && ImportRun(c, run) && ImportNext(c, run[|run| - 1], t)
    ensures ImportRun(c, all) && all[0] == run[0] && all[|all| - 1] == t
  {
    all := run + [t];
    forall i | 0 < i < |all|
      ensures ImportNext(c, all[i - 1], all[i])
    {
      if i < |run| {
        assert all[i - 1] == run[i - 1] && all[i] == run[i];
      }
    }
  }

  /** From the crash to the first block of the next round, when nothing is allocated. */
  lemma DieAndBegin(c: Chain, s: State) returns (run: seq<State>)
    requires ValidChain(c) && s.head.None? && s.best < |c| && Alloc(c) == map[]
    ensures IsRun(c, run) && Next(c, s, run[0]) && run[|run| - 1] == FirstRound(s.(phase := Down, cache := map[]))
  {
    var dead := s.(phase := Down, cache := map[]);
    var up, genesis := dead.(phase := Waiting), dead.(phase := Genesis({}, None));
    assert Alloc(c).Keys == {};
    assert NextStep(c, s, dead, Crash);
    assert NextStep(c, dead, up, Restart);
    assert NextStep(c, up, genesis, BeginGenesis);
    assert BeginRoundStep(c, genesis, FirstRound(dead));
    assert NextStep(c, genesis, FirstRound(dead), BeginRound);
    run := [dead, up, genesis, FirstRound(dead)];
  }

  /** A silent first window is counted twice. */
  lemma SilentCountsTwice(c: Chain, best: nat) returns (run: seq<State>)
    requires ValidChain(c) && best < |c| && Alloc(c) == map[] && WindowSize(best) <= |c| && Silent(c, WindowSize(best))
    ensures Spoils(c, run)
  {
    var n := WindowSize(best);
    var first := FirstPass(c, best);
    var s := first[|first| - 1];
    var dead := s.(phase := Down, cache := map[]);
    var d := WithAlloc(c, map a | a in dead.accts :: dead.accts[a].bal);
    var between := DieAndBegin(c, s);
    var second := SecondPass(c, dead, d);
    QuietIsRun(c, first);
    ImportIsQuiet(c, second);
    QuietIsRun(c, second);
    var half := JoinRuns(c, first, between);
    run := MeetRuns(c, half, second);
    var a :| ChainBalance(c, n - 1, a) != ChainBalance(c, -1, a);
    CountedTwice(c, d, dead.accts, run[|run| - 1].accts, n, a);
  }

  lemma MeetRuns(c: Chain, a: seq<State>, b: seq<State>) returns (run: seq<State>)
    requires ValidChain(c) && IsRun(c, a) && IsRun(c, b) && a[|a| - 1] == b[0]
    ensures IsRun(c, run) && run[0] == a[0] && run[|run| - 1] == b[|b| - 1]
  {
    if |b| == 1 {
      run := a;
    } else {
      assert Next(c, b[0], b[1]);
      assert IsRun(c, b[1..]);
      run := JoinRuns(c, a, b[1..]);
    }
  }

  lemma CountedTwice(c: Chain, d: Chain, before: map<Address, Acct>, after: map<Address, Acct>, n: nat, a: Address)
    requires SameBlocks(c, d) && 0 < n <= |c| && Alloc(c) == map[] && Alloc(d) == map x | x in before :: before[x].bal
    requires AccountsRight(c, before, n - 1) && AccountsRight(d, after, n - 1)
    requires ChainBalance(c, n - 1, a) != ChainBalance(c, -1, a)
    ensures !AccountsRight(c, after, n - 1)
  {
    assert AccountRight(c, before, n - 1, a) && AccountRight(d, after, n - 1, a);
    DifferenceStays(c, d, a, ChainBalance(c, n - 1, a), n - 1);
    assert !AccountRight(c, after, n - 1, a);
  }

  /** Some run from an empty database gets an account wrong exactly on the chains that are not safe. */
  lemma AccountsSafeIff(c: Chain)
    requires ValidChain(c) && |c| > 0
    ensures AccountsSafe(c) <==> forall run :: !Spoils(c, run)
  {
    if AccountsSafe(c) {
      forall run
        ensures !Spoils(c, run)
      {
        if Spoils(c, run) {
          AccountsRecover(c, run, |run| - 1);
        }
      }
    } else if !NothingBounded(c) {
      var a :| a in Alloc(c) && (Alloc(c)[a].mtrBounded != 0 || Alloc(c)[a].mtrgBounded != 0);
      var run := BoundedIsForgotten(c, 0, a);
    } else if Silent(c, 1) {
      var run := SilentCountsTwice(c, 0);
    } else {
      var run := SilentCountsTwice(c, LOOP_WINDOW);
    }
  }
}
